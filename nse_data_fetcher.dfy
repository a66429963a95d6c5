/**
 * The daily fetch stage: the holiday test against the stored calendar, the
 * search for the previous trading day, the per-sector constituent snapshot
 * with its fallback, the report downloads and the `main` that sequences them.
 * The HTTP session, the clock and the files are parameters: a response is
 * given as its status and payload, "now" as a date, the stored calendar and
 * the cached snapshot as the rows read from them.
 */
module NseDataFetcher {
  import opened Wrappers
  import opened Seqs
  import opened Text
  import opened Calendar
  import opened DateFormats
  import NseHolidayFetcher

  const CombinedDataPath := "data/raw/sector_list/"
  const FullBhavdataPath := "data/raw/sec_bhavdata_full/"
  const MaReportPath := "data/raw/ma_report/"

  /** The file `main` saves the combined snapshot to. */
  const SnapshotFile := CombinedDataPath + "combined_data.csv"

  /** Sector name and the index parameter of its constituents query, in iteration order. */
  const SectorIndex: seq<(string, string)> := [
    ("NIFTY 50", "NIFTY%2050"),
    ("NIFTY NEXT 50", "NIFTY%20NEXT%2050"),
    ("NIFTY MIDCAP 50", "NIFTY%20MIDCAP%2050"),
    ("NIFTY AUTO", "NIFTY%20AUTO"),
    ("NIFTY BANK", "NIFTY%20BANK"),
    ("NIFTY ENERGY", "NIFTY%20ENERGY"),
    ("NIFTY FIN SERVICE", "NIFTY%20FINANCIAL%20SERVICES"),
    ("NIFTY FMCG", "NIFTY%20FMCG"),
    ("NIFTY IT", "NIFTY%20IT"),
    ("NIFTY MEDIA", "NIFTY%20MEDIA"),
    ("NIFTY METAL", "NIFTY%20METAL"),
    ("NIFTY PHARMA", "NIFTY%20PHARMA"),
    ("NIFTY PSU BANK", "NIFTY%20PSU%20BANK"),
    ("NIFTY REALTY", "NIFTY%20REALTY"),
    ("NIFTY PVT BANK", "NIFTY%20PRIVATE%20BANK"),
    ("NIFTY HEALTHCARE", "NIFTY%20HEALTHCARE%20INDEX"),
    ("NIFTY CONSR DURBL", "NIFTY%20CONSUMER%20DURABLES"),
    ("NIFTY OIL AND GAS", "NIFTY%20OIL%20%26%20GAS"),
    ("NIFTY COMMODITIES", "NIFTY%20COMMODITIES"),
    ("NIFTY CONSUMPTION", "NIFTY%20INDIA%20CONSUMPTION"),
    ("NIFTY CPSE", "NIFTY%20CPSE"),
    ("NIFTY INFRA", "NIFTY%20INFRASTRUCTURE"),
    ("NIFTY MNC", "NIFTY%20MNC"),
    ("NIFTY PSE", "NIFTY%20PSE"),
    ("NIFTY SERV SECTOR", "NIFTY%20SERVICES%20SECTOR")
  ]

  // ---------------------------------------------------------------------------
  // Holiday test and previous trading day

  /**
   * `is_holiday`: is the string one of the cells of the stored calendar table?
   * The calendar is the single `HolidayDate` column of trading_holiday.csv.
   */
  predicate IsHoliday(calendar: seq<string>, date: string) {
    date in calendar
  }

  /**
   * Against the calendar the holiday fetch saves, the test on a date's
   * `%d-%b-%Y` spelling holds exactly on the exchange's listed holidays and on
   * the Saturdays and Sundays of the year it was fetched for.
   */
  lemma {:induction false} IsHolidayOfSavedCalendar(response: NseHolidayFetcher.HolidayResponse, currentYear: int, d: Date)
    requires 1 <= currentYear <= 9999
    requires NseHolidayFetcher.FetchTradingHolidayData(response, currentYear).Saved?
    requires Valid(d) && d.year <= 9999
    ensures IsHoliday(NseHolidayFetcher.FetchTradingHolidayData(response, currentYear).calendar, FormatDMonY(d))
      <==> (|| d in NseHolidayFetcher.ParseHolidays(response.tradingDates).value
            || (d.year == currentYear && (Weekday(d) == NseHolidayFetcher.Saturday || Weekday(d) == NseHolidayFetcher.Sunday)))
  {
    NseHolidayFetcher.CalendarMembership(response, currentYear, d);
  }

  /** Some date before `now` is a trading day, so the backward search stops. */
  ghost predicate HasTradingDayBefore(calendar: seq<string>, now: Date) {
    exists w :: Valid(w) && Before(w, now) && !IsHoliday(calendar, FormatDMonY(w))
  }

  /** Every date strictly between `p` and `now` is a holiday. */
  ghost predicate HolidaysBetween(calendar: seq<string>, p: Date, now: Date) {
    forall d :: Valid(d) && Before(p, d) && Before(d, now) ==> IsHoliday(calendar, FormatDMonY(d))
  }

  /** `p` is the latest date before `now` that is not a holiday. */
  ghost predicate IsLatestTradingDayBefore(calendar: seq<string>, p: Date, now: Date) {
    && Valid(p) && Before(p, now)
    && !IsHoliday(calendar, FormatDMonY(p))
    && HolidaysBetween(calendar, p, now)
  }

  /** There is only one latest trading day before a date. */
  lemma {:induction false} LatestTradingDayUnique(calendar: seq<string>, p: Date, q: Date, now: Date)
    requires Valid(now)
    requires IsLatestTradingDayBefore(calendar, p, now)
    requires IsLatestTradingDayBefore(calendar, q, now)
    ensures p == q
  {
    var sp, sq := FormatDMonY(p), FormatDMonY(q);
    BeforeIsOrdinalOrder(p, q);
    assert Before(p, q) ==> IsHoliday(calendar, sq);
    assert Before(q, p) ==> IsHoliday(calendar, sp);
  }

  /** Nothing lies strictly between the day before `now` and `now`. */
  lemma {:induction false} NothingBetweenPrev(calendar: seq<string>, now: Date)
    requires Valid(now) && now != MinDate
    ensures HolidaysBetween(calendar, Prev(now), now)
  {
    forall d | Valid(d) && Before(Prev(now), d)
      ensures !Before(d, now)
    {
      AfterPrev(now, d);
      BeforeIsOrdinalOrder(d, now);
    }
  }

  /** Stepping back over a holiday keeps every date up to `now` a holiday. */
  lemma {:induction false} StepBackOverHoliday(calendar: seq<string>, p: Date, now: Date)
    requires Valid(p) && p != MinDate
    requires IsHoliday(calendar, FormatDMonY(p))
    requires HolidaysBetween(calendar, p, now)
    ensures HolidaysBetween(calendar, Prev(p), now)
  {
    forall d | Valid(d) && Before(Prev(p), d) && Before(d, now)
      ensures IsHoliday(calendar, FormatDMonY(d))
    {
      AfterPrev(p, d);
    }
  }

  /**
   * `get_previous_trading_day`: start at now - 1 day and step back one day at a
   * time while the date, spelled `%d-%b-%Y`, is in the calendar. The result is
   * the date whose `%d-%b-%Y` spelling the source returns.
   */
  method PreviousTradingDay(now: Date, calendar: seq<string>) returns (day: Date)
    requires Valid(now)
    requires HasTradingDayBefore(calendar, now)
    ensures IsLatestTradingDayBefore(calendar, day, now)
  {
    ghost var w :| Valid(w) && Before(w, now) && !IsHoliday(calendar, FormatDMonY(w));
    BeforeIsOrdinalOrder(w, now);
    OrdinalPositive(w);
    OrdinalPositive(now);
    var previous := Prev(now);
    NothingBetweenPrev(calendar, now);
    while IsHoliday(calendar, FormatDMonY(previous))
      invariant Valid(previous) && Before(previous, now)
      invariant Ordinal(w) <= Ordinal(previous)
      invariant HolidaysBetween(calendar, previous, now)
      decreases Ordinal(previous) - Ordinal(w)
    {
      BeforeIsOrdinalOrder(w, previous);
      OrdinalPositive(previous);
      StepBackOverHoliday(calendar, previous, now);
      previous := Prev(previous);
    }
    day := previous;
  }

  // ---------------------------------------------------------------------------
  // Sector constituents

  /** One element of the `data` array of the constituents response. */
  datatype IndexEntry = IndexEntry(priority: int, symbol: string)

  /** A constituents response: its status and the `data` array (`[]` when absent). */
  datatype SectorResponse = SectorResponse(status: int, data: seq<IndexEntry>)

  /** A row of the sector list: columns `SYMBOL`, `SECTOR`. */
  datatype SectorRow = SectorRow(symbol: string, sector: string)

  /** `df['SECTOR'] = sector_name`. */
  function TagSector(rows: seq<SectorRow>, sectorName: string): (r: seq<SectorRow>)
    ensures |r| == |rows|
    ensures forall k :: 0 <= k < |r| ==> r[k] == SectorRow(rows[k].symbol, sectorName)
  {
    seq(|rows|, k requires 0 <= k < |rows| => SectorRow(rows[k].symbol, sectorName))
  }

  /** The entry with priority 1 is the index itself, not a constituent. */
  predicate IsConstituent(e: IndexEntry) {
    e.priority != 1
  }

  /** The status-200 branch: drop the priority-1 entry, keep the symbol, tag the sector. */
  function Constituents(data: seq<IndexEntry>, sectorName: string): (rows: seq<SectorRow>)
    ensures forall r :: r in rows ==> r.sector == sectorName
  {
    var kept := Filter(data, IsConstituent);
    seq(|kept|, k requires 0 <= k < |kept| => SectorRow(kept[k].symbol, sectorName))
  }

  /**
   * On one entry the branch keeps it exactly when its priority is not 1, and
   * it distributes over concatenation, so the kept entries stay in their order.
   */
  lemma {:induction false} ConstituentsAppend(a: seq<IndexEntry>, b: seq<IndexEntry>, sectorName: string)
    ensures Constituents(a + b, sectorName) == Constituents(a, sectorName) + Constituents(b, sectorName)
    ensures |b| == 1 ==>
      Constituents(b, sectorName) == (if b[0].priority != 1 then [SectorRow(b[0].symbol, sectorName)] else [])
  {
    FilterAppend(a, b, IsConstituent);
  }

  /** A symbol is listed exactly when the payload has a non-index entry for it. */
  lemma {:induction false} ConstituentsMember(data: seq<IndexEntry>, sectorName: string, symbol: string)
    ensures SectorRow(symbol, sectorName) in Constituents(data, sectorName)
        <==> exists e :: e in data && e.priority != 1 && e.symbol == symbol
  {
    var kept := Filter(data, IsConstituent);
    if exists e :: e in data && e.priority != 1 && e.symbol == symbol {
      var e :| e in data && e.priority != 1 && e.symbol == symbol;
      FilterMember(data, IsConstituent, e);
      var k :| 0 <= k < |kept| && kept[k] == e;
      assert Constituents(data, sectorName)[k] == SectorRow(symbol, sectorName);
    }
    if SectorRow(symbol, sectorName) in Constituents(data, sectorName) {
      var k :| 0 <= k < |kept| && Constituents(data, sectorName)[k] == SectorRow(symbol, sectorName);
      assert kept[k] in kept;
    }
  }

  /**
   * `fetch_sector_data`, with the fallback reading the saved snapshot file
   * (`None` when that file does not exist). See `FetchSectorAsWritten` for the
   * path the source actually reads.
   */
  function FetchSector(response: SectorResponse, sectorName: string, snapshot: Option<seq<SectorRow>>): (rows: seq<SectorRow>)
    ensures forall r :: r in rows ==> r.sector == sectorName
    ensures response.status == 200 ==> rows == Constituents(response.data, sectorName)
    ensures response.status != 200 && snapshot.Some? ==>
      |rows| == |snapshot.value| && forall k :: 0 <= k < |rows| ==> rows[k].symbol == snapshot.value[k].symbol
    ensures response.status != 200 && snapshot.None? ==> rows == []
  {
    if response.status == 200 then Constituents(response.data, sectorName)
    else match snapshot
      case Some(cached) => TagSector(cached, sectorName)
      case None => []
  }

  /** What `pd.read_csv(path)` gives: rows, a missing file, or another error that is raised. */
  datatype CsvRead = Rows(rows: seq<SectorRow>) | FileNotFound | ReadError

  /**
   * What reading `COMBINED_DATA_PATH` gives: that path is the folder
   * `data/raw/sector_list/`, not a file; reading a folder raises an error other
   * than FileNotFoundError, and only a missing folder reads as FileNotFound.
   */
  function ReadFallbackPath(folderExists: bool): CsvRead {
    if folderExists then ReadError else FileNotFound
  }

  /** The fallback path as written names the folder that holds the snapshot file. */
  lemma {:induction false} FallbackPathIsFolder()
    ensures CombinedDataPath != SnapshotFile
    ensures SnapshotFile == CombinedDataPath + "combined_data.csv"
    ensures CombinedDataPath[|CombinedDataPath| - 1] == '/'
  {
  }

  /**
   * `fetch_sector_data` as written: the fallback reads `COMBINED_DATA_PATH` and
   * only `FileNotFoundError` is caught, so any other read error escapes (`Err`).
   */
  function FetchSectorAsWritten(response: SectorResponse, sectorName: string, read: CsvRead): (r: Result<seq<SectorRow>>)
    ensures r.Err? <==> response.status != 200 && read.ReadError?
  {
    if response.status == 200 then Ok(Constituents(response.data, sectorName))
    else match read
      case Rows(cached) => Ok(TagSector(cached, sectorName))
      case FileNotFound => Ok([])
      case ReadError => Err("IsADirectoryError")
  }

  /**
   * As written, once the snapshot folder exists (it must, for the snapshot to
   * have been saved) every failed constituents request raises instead of
   * falling back, whatever the saved snapshot holds.
   */
  lemma {:induction false} FallbackAsWrittenRaises(response: SectorResponse, sectorName: string, snapshot: seq<SectorRow>)
    requires response.status != 200
    ensures FetchSectorAsWritten(response, sectorName, ReadFallbackPath(true)).Err?
    ensures FetchSector(response, sectorName, Some(snapshot)) == TagSector(snapshot, sectorName)
  {
  }

  /** The corrected fetch agrees with the source wherever the source does not raise. */
  lemma {:induction false} FetchSectorAgrees(response: SectorResponse, sectorName: string, snapshot: Option<seq<SectorRow>>)
    ensures response.status == 200 ==>
      FetchSectorAsWritten(response, sectorName, ReadFallbackPath(false)) == Ok(FetchSector(response, sectorName, snapshot))
    ensures snapshot.None? ==>
      FetchSectorAsWritten(response, sectorName, ReadFallbackPath(false)) == Ok(FetchSector(response, sectorName, snapshot))
    ensures snapshot.Some? ==>
      FetchSectorAsWritten(response, sectorName, Rows(snapshot.value)) == Ok(FetchSector(response, sectorName, snapshot))
  {
  }

  /** `combine_sector_data`: `pd.concat(sector_data, ignore_index=True)`. */
  function CombineSectorData(sectorData: seq<seq<SectorRow>>): (r: seq<SectorRow>)
    ensures |r| == TotalLength(sectorData)
  {
    Concat(sectorData)
  }

  /**
   * Per-sector results of one run over a sector table (`main` uses
   * `SectorIndex`), in its iteration order, one response per sector.
   */
  function FetchAll(index: seq<(string, string)>, responses: seq<SectorResponse>, snapshot: Option<seq<SectorRow>>): (r: seq<seq<SectorRow>>)
    requires |responses| == |index|
    ensures |r| == |index|
    ensures forall i :: 0 <= i < |index| ==> r[i] == FetchSector(responses[i], index[i].0, snapshot)
  {
    seq(|index|, i requires 0 <= i < |index| => FetchSector(responses[i], index[i].0, snapshot))
  }

  /** The snapshot a read of the fallback path supplies; a read that raises supplies none. */
  function SnapshotOf(read: CsvRead): (r: Option<seq<SectorRow>>)
    ensures r.Some? <==> read.Rows?
  {
    if read.Rows? then Some(read.rows) else None
  }

  /**
   * The sector loop of `main` over `fetch_sector_data` as written: the first
   * sector whose request fails while the fallback read raises ends the run;
   * otherwise every sector's result is the corrected fetch's.
   */
  function FetchAllAsWritten(index: seq<(string, string)>, responses: seq<SectorResponse>, read: CsvRead): (r: Result<seq<seq<SectorRow>>>)
    requires |responses| == |index|
    ensures r.Err? <==> read.ReadError? && exists i :: 0 <= i < |index| && responses[i].status != 200
    ensures r.Ok? ==> r.value == FetchAll(index, responses, SnapshotOf(read))
  {
    var calls := seq(|index|, i requires 0 <= i < |index| => (responses[i], index[i].0));
    var r := MapAll(calls, (c: (SectorResponse, string)) => FetchSectorAsWritten(c.0, c.1, read));
    assert forall i :: 0 <= i < |index| ==> calls[i] == (responses[i], index[i].0);
    if r.Ok? then
      assert forall i :: 0 <= i < |index| ==> r.value[i] == FetchSector(responses[i], index[i].0, SnapshotOf(read)) by {
        forall i | 0 <= i < |index|
          ensures r.value[i] == FetchSector(responses[i], index[i].0, SnapshotOf(read))
        {
          FetchSectorAgrees(responses[i], index[i].0, SnapshotOf(read));
        }
      }
      r
    else r
  }

  /** A block whose rows all carry one sector name keeps it in the concatenation. */
  lemma {:induction false} TaggedBlock(blocks: seq<seq<SectorRow>>, i: int, name: string)
    requires 0 <= i < |blocks| && forall r :: r in blocks[i] ==> r.sector == name
    ensures var lo, hi := TotalLength(blocks[..i]), TotalLength(blocks[..i + 1]);
      && lo <= hi <= |Concat(blocks)|
      && Concat(blocks)[lo..hi] == blocks[i]
      && forall k :: lo <= k < hi ==> Concat(blocks)[k].sector == name
  {
    BlockPosition(blocks, i);
    var lo, hi := TotalLength(blocks[..i]), TotalLength(blocks[..i + 1]);
    forall k | lo <= k < hi
      ensures Concat(blocks)[k].sector == name
    {
      assert Concat(blocks)[k] == blocks[i][k - lo];
      assert blocks[i][k - lo] in blocks[i];
    }
  }

  /**
   * The combined snapshot holds the sectors' blocks one after another in the
   * order of the sector table; block `i` is sector `i`'s result, and every row
   * in it carries sector `i`'s name.
   */
  lemma {:induction false} CombinedBlocks(index: seq<(string, string)>, responses: seq<SectorResponse>, snapshot: Option<seq<SectorRow>>, i: int)
    requires |responses| == |index| && 0 <= i < |index|
    ensures var blocks := FetchAll(index, responses, snapshot);
      var lo, hi := TotalLength(blocks[..i]), TotalLength(blocks[..i + 1]);
      && lo <= hi <= |CombineSectorData(blocks)|
      && CombineSectorData(blocks)[lo..hi] == FetchSector(responses[i], index[i].0, snapshot)
      && forall k :: lo <= k < hi ==> CombineSectorData(blocks)[k].sector == index[i].0
  {
    var blocks := FetchAll(index, responses, snapshot);
    var name := index[i].0;
    assert blocks[i] == FetchSector(responses[i], name, snapshot);
    TaggedBlock(blocks, i, name);
  }

  // ---------------------------------------------------------------------------
  // Report downloads

  /** A download request: the report URL and the folder its file is saved in. */
  datatype Download = Download(url: string, folder: string)

  /** A response to a download request. */
  datatype HttpResponse = HttpResponse(status: int, url: string, content: seq<int>)

  /** A file written verbatim to disk. */
  datatype SavedFile = SavedFile(path: string, content: seq<int>)

  /**
   * What one `download_csv_file` call does: write the file, skip it on a
   * failed request, or raise because the path names a folder.
   */
  datatype DownloadOutcome = Written(file: SavedFile) | NotWritten | Raised(error: string)

  const BhavUrlPrefix := "https://archives.nseindia.com/products/content/"
  const MaUrlPrefix := "https://archives.nseindia.com/archives/equities/mkt/"

  /** A file name made of a stem, digits and an extension, none holding `/`. */
  lemma {:induction false} NoSlashInName(stem: string, digits: string, ext: string)
    requires '/' !in stem && AllDigits(digits) && '/' !in ext
    ensures '/' !in stem + digits + ext
  {
    var name := stem + digits + ext;
    assert forall k :: 0 <= k < |name| ==>
      (k < |stem| && name[k] == stem[k])
      || (|stem| <= k < |stem| + |digits| && name[k] == digits[k - |stem|])
      || (|stem| + |digits| <= k && name[k] == ext[k - |stem| - |digits|]);
  }

  /** A folder URL followed by such a file name: the name is all that follows the folder, and the digits sit just before the extension. */
  lemma {:induction false} UrlShape(prefix: string, stem: string, digits: string, ext: string)
    requires '/' !in stem && AllDigits(digits) && '/' !in ext
    ensures var r := prefix + stem + digits + ext;
      && r[..|prefix|] == prefix && r[|prefix|..] == stem + digits + ext && '/' !in r[|prefix|..]
      && r[|r| - |ext| - |digits|..|r| - |ext|] == digits
  {
    var r := prefix + stem + digits + ext;
    NoSlashInName(stem, digits, ext);
    assert r == prefix + (stem + digits + ext);
    assert r[|prefix|..] == stem + digits + ext;
    assert r[|r| - |ext| - |digits|..|r| - |ext|] == digits;
  }

  /** The full bhav report's URL: the archive folder, then a file name holding the `ddmmyyyy` date. */
  function BhavUrl(d: Date): (r: string)
    ensures |r| > |BhavUrlPrefix| && r[..|BhavUrlPrefix|] == BhavUrlPrefix
    ensures '/' !in r[|BhavUrlPrefix|..] && r[|r| - 12..|r| - 4] == FormatDdMmYyyy(d)
  {
    UrlShape(BhavUrlPrefix, "sec_bhavdata_full_", FormatDdMmYyyy(d), ".csv");
    BhavUrlPrefix + "sec_bhavdata_full_" + FormatDdMmYyyy(d) + ".csv"
  }

  /** The market-activity report's URL: the archive folder, then `MA<ddmmyy>.csv`. */
  function MaUrl(d: Date): (r: string)
    ensures |r| > |MaUrlPrefix| && r[..|MaUrlPrefix|] == MaUrlPrefix
    ensures '/' !in r[|MaUrlPrefix|..] && r[|MaUrlPrefix|..] == "MA" + FormatDdMmYy(d) + ".csv"
  {
    UrlShape(MaUrlPrefix, "MA", FormatDdMmYy(d), ".csv");
    MaUrlPrefix + "MA" + FormatDdMmYy(d) + ".csv"
  }

  function BhavDownload(d: Date): Download
  {
    Download(BhavUrl(d), FullBhavdataPath)
  }

  function MaDownload(d: Date): Download
  {
    Download(MaUrl(d), MaReportPath)
  }

  /**
   * The requests the day-by-day loops build: the date is spelled with dashes,
   * `%d-%m-%Y` or `%d-%m-%y`, and the dashes are then removed.
   */
  function DashedBhavDownload(d: Date): (r: Download)
    requires Valid(d)
    ensures r == BhavDownload(d)
  {
    CompactFormats(d);
    var spelled := RemoveDashes(Pad2(d.day) + "-" + Pad2(d.month) + "-" + Pad4(d.year));
    Download(BhavUrlPrefix + "sec_bhavdata_full_" + spelled + ".csv", FullBhavdataPath)
  }

  function DashedMaDownload(d: Date): (r: Download)
    requires Valid(d)
    ensures r == MaDownload(d)
  {
    CompactFormats(d);
    var spelled := RemoveDashes(Pad2(d.day) + "-" + Pad2(d.month) + "-" + Pad2(d.year));
    Download(MaUrlPrefix + "MA" + spelled + ".csv", MaReportPath)
  }

  /** `s.rfind(c)`: the last position of `c`, or -1. */
  function LastIndexOf(s: string, c: char): (i: int)
    ensures -1 <= i < |s|
    ensures i >= 0 ==> s[i] == c
    ensures forall k :: i < k < |s| ==> s[k] != c
  {
    if |s| == 0 then -1
    else if s[|s| - 1] == c then |s| - 1
    else LastIndexOf(s[..|s| - 1], c)
  }

  lemma {:induction false} LastIndexOfAppend(a: string, b: string, c: char)
    requires c !in b
    ensures LastIndexOf(a + b, c) == LastIndexOf(a, c)
    decreases |b|
  {
    if |b| == 0 {
      assert a + b == a;
    } else {
      assert (a + b)[..|a + b| - 1] == a + b[..|b| - 1];
      assert b[|b| - 1] in b;
      LastIndexOfAppend(a, b[..|b| - 1], c);
    }
  }

  /**
   * `os.path.join(folder, name)`: the name comes last; an absolute name
   * replaces the folder, otherwise the folder comes first.
   */
  function JoinPath(folder: string, name: string): (r: string)
    ensures |r| >= |name| && r[|r| - |name|..] == name
    ensures !(|name| > 0 && name[0] == '/') ==> |r| >= |folder| && r[..|folder|] == folder
  {
    if |name| > 0 && name[0] == '/' then name
    else if folder == "" || folder[|folder| - 1] == '/' then folder + name
    else folder + "/" + name
  }

  /**
   * `response.url[file_url.rfind('/')+1:]`: the tail of the URL that answered,
   * cut at the position of the last `/` of the URL that was requested.
   */
  function DownloadedFileName(fileUrl: string, responseUrl: string): (r: string)
    ensures |r| <= |responseUrl| && r == responseUrl[|responseUrl| - |r|..]
    ensures responseUrl == fileUrl ==> '/' !in r
  {
    var i := LastIndexOf(fileUrl, '/') + 1;
    var lo := if i <= |responseUrl| then i else |responseUrl|;
    var r := responseUrl[lo..];
    assert r == Slice(responseUrl, i, |responseUrl|);
    assert responseUrl == fileUrl ==> forall k :: 0 <= k < |r| ==> r[k] == fileUrl[lo + k] != '/';
    r
  }

  /**
   * The path `open(path, "wb")` cannot create a file at once `os.makedirs`
   * has made the folder: the empty path, one ending in `/`, and one whose last
   * segment is `.` or `..` all name a folder, and opening one raises.
   */
  predicate NamesFolder(path: string) {
    || |path| == 0 || path[|path| - 1] == '/'
    || path == "." || (|path| >= 2 && path[|path| - 2..] == "/.")
    || path == ".." || (|path| >= 3 && path[|path| - 3..] == "/..")
  }

  /**
   * `download_csv_file`: on status 200 write the payload verbatim to the
   * folder under the name the answering URL gives, raising when that path
   * names a folder; any other status writes nothing.
   */
  function DownloadCsvFile(fileUrl: string, folder: string, response: HttpResponse): (r: DownloadOutcome)
    ensures r.NotWritten? <==> response.status != 200
    ensures r.Raised? <==> response.status == 200 && NamesFolder(JoinPath(folder, DownloadedFileName(fileUrl, response.url)))
    ensures r.Written? ==> r.file.content == response.content
    ensures r.Written? ==> r.file.path == JoinPath(folder, DownloadedFileName(fileUrl, response.url))
  {
    var path := JoinPath(folder, DownloadedFileName(fileUrl, response.url));
    if response.status != 200 then NotWritten
    else if NamesFolder(path) then Raised("IsADirectoryError")
    else Written(SavedFile(path, response.content))
  }

  /**
   * An answering URL no longer than the requested one's folder part leaves an
   * empty file name: the path is the folder itself and the download raises.
   */
  lemma {:induction false} ShortRedirectRaises(fileUrl: string, folder: string, response: HttpResponse)
    requires response.status == 200 && |folder| > 0 && folder[|folder| - 1] == '/'
    requires |response.url| <= LastIndexOf(fileUrl, '/') + 1
    ensures DownloadCsvFile(fileUrl, folder, response).Raised?
  {
    assert DownloadedFileName(fileUrl, response.url) == "";
    assert JoinPath(folder, "") == folder;
  }

  /**
   * When the server answers at the requested URL, the file is named after the
   * URL's last path segment: `prefix` up to its last `/`, then `name`.
   */
  lemma {:induction false} FileNameIsLastSegment(prefix: string, name: string)
    requires |prefix| > 0 && prefix[|prefix| - 1] == '/' && '/' !in name
    ensures DownloadedFileName(prefix + name, prefix + name) == name
  {
    LastIndexOfAppend(prefix, name, '/');
    assert (prefix + name)[|prefix|..] == name;
  }

  /**
   * A report URL made of a folder URL and a file name `stem + digits + ext`
   * without `/`, with an extension that keeps the name from being `.` or `..`,
   * answered without redirection, is saved under that file name.
   */
  lemma {:induction false} SavedUnderOwnName(prefix: string, stem: string, digits: string, ext: string,
                                             folder: string, content: seq<int>)
    requires |prefix| > 0 && prefix[|prefix| - 1] == '/'
    requires |folder| > 0 && folder[|folder| - 1] == '/'
    requires '/' !in stem && AllDigits(digits) && '/' !in ext && ext == ".csv"
    ensures var url := prefix + stem + digits + ext;
      DownloadCsvFile(url, folder, HttpResponse(200, url, content)) == Written(SavedFile(folder + stem + digits + ext, content))
  {
    var name := stem + digits + ext;
    NoSlashInName(stem, digits, ext);
    assert prefix + stem + digits + ext == prefix + name;
    FileNameIsLastSegment(prefix, name);
    var path := folder + name;
    assert folder + stem + digits + ext == path;
    assert path[|path| - 4..] == ext;
    assert !NamesFolder(path) by {
      assert path[|path| - 1] == 'v';
      if |path| >= 2 { assert path[|path| - 2] == 's'; }
      if |path| >= 3 { assert path[|path| - 3] == 'c'; }
    }
  }

  /**
   * A market-activity report downloaded without redirection is saved as
   * `MA<ddmmyy>.csv` in the report folder, the name the transform stage parses
   * back to the same date for the years 2000-2099.
   */
  lemma {:induction false} MaReportRoundTrip(d: Date, content: seq<int>)
    requires Valid(d) && 2000 <= d.year <= 2099
    ensures var saved := DownloadCsvFile(MaUrl(d), MaReportPath, HttpResponse(200, MaUrl(d), content));
      && saved == Written(SavedFile(MaReportPath + "MA" + FormatDdMmYy(d) + ".csv", content))
      && ParseMaFileName("MA" + FormatDdMmYy(d) + ".csv") == Ok(d)
  {
    SavedUnderOwnName(MaUrlPrefix, "MA", FormatDdMmYy(d), ".csv", MaReportPath, content);
    ParseMaFileNameOfFormat(d);
  }

  /** A full bhav report downloaded without redirection is saved as `sec_bhavdata_full_<ddmmyyyy>.csv`. */
  lemma {:induction false} BhavReportFileName(d: Date, content: seq<int>)
    requires Valid(d)
    ensures DownloadCsvFile(BhavUrl(d), FullBhavdataPath, HttpResponse(200, BhavUrl(d), content))
      == Written(SavedFile(FullBhavdataPath + "sec_bhavdata_full_" + FormatDdMmYyyy(d) + ".csv", content))
  {
    SavedUnderOwnName(BhavUrlPrefix, "sec_bhavdata_full_", FormatDdMmYyyy(d), ".csv", FullBhavdataPath, content);
  }

  // ---------------------------------------------------------------------------
  // main

  /** The loop of `main` over the sector table: one `fetch_sector_data` call per sector, in order. */
  method FetchSectors(index: seq<(string, string)>, responses: seq<SectorResponse>, snapshot: Option<seq<SectorRow>>)
    returns (sectorData: seq<seq<SectorRow>>)
    requires |responses| == |index|
    ensures sectorData == FetchAll(index, responses, snapshot)
  {
    sectorData := [];
    for i := 0 to |index|
      invariant sectorData == FetchAll(index, responses, snapshot)[..i]
    {
      var data := FetchSector(responses[i], index[i].0, snapshot);
      sectorData := sectorData + [data];
    }
  }

  /**
   * `main`: fetch every sector in order and combine them (the combined table is
   * what is saved to `SnapshotFile`); then, unless today is a holiday, request
   * today's two reports and the previous trading day's two reports. `raised`
   * tells that reading the previous trading day back raised before its two
   * requests were made.
   */
  method DailyFetch(today: Date, calendar: seq<string>, responses: seq<SectorResponse>, snapshot: Option<seq<SectorRow>>)
    returns (combined: seq<SectorRow>, downloads: seq<Download>, raised: bool)
    requires Valid(today) && today.year <= 9999
    requires |responses| == |SectorIndex|
    requires !IsHoliday(calendar, FormatDMonY(today)) ==> HasTradingDayBefore(calendar, today)
    ensures combined == CombineSectorData(FetchAll(SectorIndex, responses, snapshot))
    ensures IsHoliday(calendar, FormatDMonY(today)) ==> downloads == [] && !raised
    ensures !IsHoliday(calendar, FormatDMonY(today)) ==>
      exists p :: (IsLatestTradingDayBefore(calendar, p, today)
        && (InTimestampRange(p) ==> !raised && downloads == [BhavDownload(today), MaDownload(today), BhavDownload(p), MaDownload(p)])
        && (!InTimestampRange(p) ==> raised && downloads == [BhavDownload(today), MaDownload(today)]))
  {
    var sectorData := FetchSectors(SectorIndex, responses, snapshot);
    combined := CombineSectorData(sectorData);

    if IsHoliday(calendar, FormatDMonY(today)) {
      downloads, raised := [], false;
      return;
    }
    var previousDownloads := PreviousDayDownloads(today, calendar);
    if previousDownloads.Ok? {
      downloads, raised := [BhavDownload(today), MaDownload(today)] + previousDownloads.value, false;
    } else {
      downloads, raised := [BhavDownload(today), MaDownload(today)], true;
    }
  }

  /**
   * The second half of `main` on a trading day: find the previous trading day,
   * spell it `%d-%b-%Y`, read it back with `pd.to_datetime`, and request its
   * two reports. The read raises when the day is not a timestamp.
   */
  method PreviousDayDownloads(today: Date, calendar: seq<string>) returns (r: Result<seq<Download>>)
    requires Valid(today) && today.year <= 9999
    requires HasTradingDayBefore(calendar, today)
    ensures exists p :: (IsLatestTradingDayBefore(calendar, p, today)
      && (InTimestampRange(p) ==> r == Ok([BhavDownload(p), MaDownload(p)]))
      && (!InTimestampRange(p) ==> r.Err?))
  {
    var previous := PreviousTradingDay(today, calendar);
    var spelled := FormatDMonY(previous);
    TimestampOfFormatDMonY(previous);
    var parsed := ToTimestampDMonY(spelled);
    if parsed.Err? {
      return Err(parsed.reason);
    }
    r := Ok([DashedBhavDownload(parsed.value), DashedMaDownload(parsed.value)]);
    assert IsLatestTradingDayBefore(calendar, previous, today);
  }
}
