# Stock market percent-change report: verified model of the pipeline core

This project models the data pipeline behind the NSE (National Stock Exchange
of India) percent-change report and proves properties of that model. The
pipeline has two stages.

**Extraction** has three parts:
- **The daily fetch**:
  - It fetches the constituents of 25 sector indices. When a request fails it falls back to the saved snapshot.
  - It combines the sectors into one sector list.
  - Unless today is a trading holiday, it downloads the full bhav report and the market-activity (MA) report for today and for the previous trading day.
- **The historical backfill**: it requests both reports for every non-holiday date from 01-Apr-2023 to today.
- **The holiday calendar**: it lists the exchange's holidays, then every Saturday and every Sunday of the current year, each spelled `dd-Mon-yyyy`.

**Transform** builds four tables:
- the cleaned equity (`EQ`) bhav table;
- `fact_bhavdata`, restricted to the constituents of NIFTY 50, NIFTY NEXT 50 and NIFTY MIDCAP 50 and left-joined with their sectors;
- the cleaned MA table and `fact_MA_report`;
- the date dimension `dim_datetime`.

**Modules**

| module | contents |
|---|---|
| `Wrappers` | `Option`, `Result` |
| `Seqs` | row-level table operations: concat, mask selection, column conversion that can raise, `unique` |
| `Text` | `str.strip`, `str.upper`, decimal digits, `strptime`'s numeric fields, Python's `int()` |
| `Calendar` | proleptic Gregorian dates, day ordinals, weekdays, ±1 day |
| `DateFormats` | the `%d-%b-%Y`, `%d%m%Y` and `%d%m%y` spellings, the pandas timestamp range, and the date parse from the MA file name |
| `NseDataFetcher` | `src/extraction/nse_data_fetcher.py` |
| `NseStockHistFetcher` | `src/extraction/nse_stock_hist_fetcher.py` |
| `NseHolidayFetcher` | `src/extraction/nse_holiday_fetcher.py` |
| `DataPreprocessing` | `src/integration/data_preprocessing.py` |

**Form of the model.** Each loop in the source is a method with a loop and invariants:
- the backward search for the previous trading day;
- the sector loop of the daily `main`;
- the backfill loop;
- the file-reading loops of the transform stage.

Each of these methods is proved against a specification function. The rest is functions and lemmas.

**What is a parameter.** These are passed in, not modelled:
- HTTP responses, given as status, payload and resolved URL;
- the current date;
- the stored holiday calendar, as its column of strings;
- the saved sector snapshot;
- folder listings, each file given as its name and its parsed rows.

The files that are written are returned as values.

## Model

| member | source | states |
|---|---|---|
| Seqs.Concat | src/integration/data_preprocessing.py:32 | concatenating frames gives as many rows as all frames together |
| Seqs.TotalLengthAtLeast | src/integration/data_preprocessing.py:63 | blocks of at least one row each hold at least as many rows as there are blocks |
| Seqs.ConcatAppend | src/extraction/nse_data_fetcher.py:114-120 | concatenation of a list of frames distributes over appending lists, in rows and in row count |
| Seqs.BlockPosition | src/extraction/nse_data_fetcher.py:114-120 | frame `i` appears unchanged in the concatenation, right after the rows of frames 0..i-1 |
| Seqs.ConcatMember | src/integration/data_preprocessing.py:32 | a row is in the concatenation exactly when it is in one of the frames |
| Seqs.Filter | src/integration/data_preprocessing.py:39 | a boolean mask selects only rows of the input that satisfy it, never more rows than the input |
| Seqs.FilterAppend | src/integration/data_preprocessing.py:39 | selection distributes over concatenation and keeps a single row exactly when the mask holds, so selected rows keep their order |
| Seqs.FilterSingle | src/integration/data_preprocessing.py:39 | a mask over one row keeps it exactly when the row satisfies it |
| Seqs.FilterMember | src/integration/data_preprocessing.py:39 | a row is selected exactly when it is an input row satisfying the mask |
| Seqs.MapAll | src/extraction/nse_holiday_fetcher.py:31 | converting a column: on success one converted value per cell, in order; it fails exactly when some cell fails to convert |
| Seqs.MapAllSnoc | src/integration/data_preprocessing.py:92-101 | converting one more cell after a prefix that converted appends that cell's value |
| Seqs.MapAllFails | src/integration/data_preprocessing.py:92-101 | one cell that fails to convert makes the whole conversion fail |
| Seqs.Distinct | src/integration/data_preprocessing.py:59 | `unique()` holds every value of the column, only values of the column, and none twice |
| Seqs.DistinctMember | src/integration/data_preprocessing.py:59 | a value is in `unique()` exactly when it occurs in the column |
| Seqs.FirstIndex | src/integration/data_preprocessing.py:154 | the first position where a value occurs |
| Seqs.FirstIndexPrefix | src/integration/data_preprocessing.py:154 | extending a column does not move the first occurrence of a value already in it |
| Seqs.DistinctOrderPair | src/integration/data_preprocessing.py:154 | of any two entries of `unique()`, the earlier one first occurs earlier in the column |
| Seqs.DistinctOrder | src/integration/data_preprocessing.py:154 | `unique()` lists values in the order of their first occurrence |
| Text.StripLeft | src/integration/data_preprocessing.py:37-38 | drops exactly the leading whitespace run; the result starts with a non-space |
| Text.StripRight | src/integration/data_preprocessing.py:37-38 | drops exactly the trailing whitespace run; the result ends with a non-space |
| Text.Strip | src/extraction/nse_holiday_fetcher.py:30 | `strip()` never lengthens its input, leaves no whitespace at either end, and empties an all-whitespace string |
| Text.StripSlice | src/extraction/nse_holiday_fetcher.py:30 | `strip()` is a contiguous slice of its input, and everything cut from either side is whitespace |
| Text.StripIdempotent | src/extraction/nse_holiday_fetcher.py:30 | stripping twice is stripping once |
| Text.StripUnpadded | src/extraction/nse_holiday_fetcher.py:30 | a string with no whitespace at either end is its own strip |
| Text.StripLeadingSpace | src/integration/data_preprocessing.py:37-38 | a leading whitespace character is stripped away |
| Text.Upper | src/integration/data_preprocessing.py:110 | `str.upper` maps every character independently and keeps the length |
| Text.UpperIdempotent | src/integration/data_preprocessing.py:110 | upper-cased text has no lower-case ASCII letter, and upper-casing it again changes nothing |
| Text.Pad2 | src/extraction/nse_data_fetcher.py:199-200 | `%d`/`%m`/`%y` give exactly two digits |
| Text.Pad4 | src/extraction/nse_data_fetcher.py:199 | `%Y` gives exactly four digits |
| Text.DigitsValue | src/integration/data_preprocessing.py:93-95 | a digit string of length n denotes a value below 10^n |
| Text.DigitsValueSnoc | src/integration/data_preprocessing.py:93-95 | appending a digit multiplies the value by ten and adds the digit |
| Text.DigitsValueSplit | src/integration/data_preprocessing.py:93-95 | a digit string followed by two digits denotes 100 times the first part plus the second |
| Text.DigitsValuePair | src/integration/data_preprocessing.py:93-95 | two digits denote ten times the first plus the second |
| Text.ParsePad2 | src/extraction/nse_stock_hist_fetcher.py:48-49 | the strict read of a two-digit zero-padded number gives the number back |
| Text.Pad2Mod | src/extraction/nse_data_fetcher.py:200 | `%y` renders only the last two digits of the year |
| Text.Pad4Halves | src/extraction/nse_data_fetcher.py:199 | below 10000, `%Y` is the two-digit hundreds followed by the two-digit rest |
| Text.ParsePad4 | src/extraction/nse_stock_hist_fetcher.py:48-49 | the strict read of a four-digit zero-padded year gives the year back |
| Text.ParseNat | src/extraction/nse_stock_hist_fetcher.py:48-49 | the strict digit read of `strptime`'s `%d` and `%Y` fields succeeds exactly on a non-empty string of ASCII digits, with a value below 10^length |
| Text.PyInt | src/integration/data_preprocessing.py:93-95 | `int()` as a definition: whitespace around the number, an optional sign, digits with single underscores between them, anything else raising; the lemmas below state what it reads |
| Text.DigitGroupsEnds | src/integration/data_preprocessing.py:93-95 | digits grouped by underscores start and end with a digit |
| Text.GroupedValueOfDigits | src/integration/data_preprocessing.py:93-95 | a plain digit string is a valid `int()` literal worth its digit value |
| Text.SingleDigitGroup | src/integration/data_preprocessing.py:93-95 | one digit is a valid `int()` literal worth that digit |
| Text.PyIntOfDigits | src/integration/data_preprocessing.py:93-95 | on a plain digit string `int()` and the strict `strptime` read agree, both giving the digit value |
| Text.PyIntStrip | src/integration/data_preprocessing.py:93-95 | `int()` ignores whitespace around the number |
| Text.PyIntLeadingSpace | src/integration/data_preprocessing.py:93 | `int()` skips a leading blank, so `int(' 1')` is 1 |
| Text.PyIntSigned | src/integration/data_preprocessing.py:95 | a leading `-` negates and a leading `+` keeps the value of the grouped digits |
| Text.PyIntGrouped | src/integration/data_preprocessing.py:93-95 | grouped digits read as their value, the underscores ignored |
| Text.PyIntDigit | src/integration/data_preprocessing.py:93-95 | a single digit reads as its value |
| Text.PyIntNegativeDigit | src/integration/data_preprocessing.py:95 | `-` followed by a digit reads as the negated digit |
| Text.PyIntPad2 | src/integration/data_preprocessing.py:93-95 | `int()` of a zero-padded two-digit number gives the number back |
| Calendar.OrdinalPositive | src/extraction/nse_data_fetcher.py:77 | day ordinals start at 1, on 0001-01-01 only |
| Calendar.Ordinal | src/extraction/nse_data_fetcher.py:77 | `toordinal()`: a date's ordinal lies within the span of ordinals of its year |
| Calendar.Weekday | src/integration/data_preprocessing.py:156 | `weekday()` lies in 0..6 |
| Calendar.OrdinalAnchors | src/integration/data_preprocessing.py:156 | 0001-01-01 is ordinal 1 and a Monday (0); 2023-04-01 is ordinal 738611 and a Saturday (5), as in Python's `date` |
| Calendar.Next | src/extraction/nse_stock_hist_fetcher.py:75 | `+ timedelta(days=1)` gives a real date, one ordinal later and strictly after |
| Calendar.Prev | src/extraction/nse_data_fetcher.py:77-80 | `- timedelta(days=1)` gives a real date, one ordinal earlier and strictly before |
| Calendar.BeforeIsOrdinalOrder | src/extraction/nse_stock_hist_fetcher.py:54 | comparing dates field by field is the same as comparing their ordinals |
| Calendar.NextPrev | src/extraction/nse_data_fetcher.py:77 | stepping back a day and then forward a day returns the same date |
| Calendar.PrevNext | src/extraction/nse_stock_hist_fetcher.py:75 | stepping forward a day and then back a day returns the same date |
| Calendar.NoDateBetween | src/extraction/nse_stock_hist_fetcher.py:75 | there is no date strictly between a date and the next day |
| Calendar.AfterPrev | src/extraction/nse_data_fetcher.py:77-80 | the dates after the day before `p` are `p` and the dates after `p` |
| Calendar.WeekdayNext | src/integration/data_preprocessing.py:156 | the weekday (Monday = 0) lies in 0..6 and advances by one modulo 7 from day to day |
| DateFormats.MonthFromAbbr | src/extraction/nse_stock_hist_fetcher.py:48-49 | `%b` is read back as the month whose abbreviation it is, and any abbreviation is found |
| DateFormats.MonthFromAbbrOf | src/extraction/nse_stock_hist_fetcher.py:48-49 | reading a month's abbreviation gives the month back |
| DateFormats.FormatDMonY | src/extraction/nse_data_fetcher.py:79 | `%d-%b-%Y` is 11 characters, with dashes at positions 2 and 6 |
| DateFormats.ParseDMonY | src/extraction/nse_stock_hist_fetcher.py:48-49 | `strptime(s, '%d-%b-%Y')` accepts only real dates, with years up to 9999 |
| DateFormats.PadOfDigits2 | src/extraction/nse_holiday_fetcher.py:31 | two digits, read as a number and re-padded, give the same two digits |
| DateFormats.PadOfDigits4 | src/extraction/nse_holiday_fetcher.py:31 | four digits, read as a number and re-padded, give the same four digits |
| DateFormats.ParseFormatDMonY | src/extraction/nse_stock_hist_fetcher.py:48-49 | parsing a formatted date gives the date back (years 1-9999) |
| DateFormats.FormatParseDMonY | src/extraction/nse_holiday_fetcher.py:30-41 | formatting a parsed string gives back exactly that string |
| DateFormats.FormatDMonYInjective | src/extraction/nse_data_fetcher.py:66 | two dates share a `%d-%b-%Y` spelling exactly when they are equal |
| DateFormats.ToTimestampDMonY | src/extraction/nse_holiday_fetcher.py:31 | a cell `pd.to_datetime` accepts reads as a real date within the pandas timestamp range (1677-09-22 to 2262-04-11) |
| DateFormats.TimestampYears | src/extraction/nse_holiday_fetcher.py:34-35 | 1 January and 31 December of a year are both timestamps exactly for the years 1678-2261 |
| DateFormats.TimestampOfFormatDMonY | src/extraction/nse_data_fetcher.py:213-215 | a date spelled `%d-%b-%Y` is read back by `pd.to_datetime` exactly when it is a timestamp, and the read raises otherwise |
| DateFormats.FormatToTimestampDMonY | src/extraction/nse_holiday_fetcher.py:30-41 | a string `pd.to_datetime` reads is the `%d-%b-%Y` spelling of what it reads, as `strptime` reads it |
| DateFormats.CastsToTimestamps | src/integration/data_preprocessing.py:163 | the cast `isin` applies to a string column before comparing with timestamps succeeds only when `pd.to_datetime` reads every entry |
| DateFormats.RemoveDashes | src/extraction/nse_stock_hist_fetcher.py:61-62 | `replace("-", "")` leaves no dash and never lengthens the string |
| DateFormats.RemoveDashesOfDigits | src/extraction/nse_stock_hist_fetcher.py:61-62 | removing dashes from a digit string changes nothing |
| DateFormats.RemoveDashesAppend | src/extraction/nse_stock_hist_fetcher.py:61-62 | removing dashes distributes over concatenation |
| DateFormats.FormatDdMmYyyy | src/extraction/nse_data_fetcher.py:199 | `%d%m%Y` is eight digits |
| DateFormats.FormatDdMmYy | src/extraction/nse_data_fetcher.py:200 | `%d%m%y` is six digits |
| DateFormats.RemoveDashesDashed | src/extraction/nse_stock_hist_fetcher.py:61-62 | removing the dashes from `a-b-c` over digit strings gives `abc` |
| DateFormats.CompactFormats | src/extraction/nse_stock_hist_fetcher.py:61-62 | `%d-%m-%Y` and `%d-%m-%y` with the dashes removed equal `%d%m%Y` and `%d%m%y`; the six-digit form is the eight-digit one without the century digits |
| DateFormats.CenturyDigits | src/extraction/nse_data_fetcher.py:199-200 | `%y` is the last two digits of `%Y` |
| DateFormats.Slice | src/integration/data_preprocessing.py:92-95 | Python slicing clamps to the string and never yields more than the string |
| DateFormats.ParseMaFileName | src/integration/data_preprocessing.py:92-101 | a name that parses gives a real date within the pandas timestamp range; a field `int()` rejects or a date that does not exist gives an error |
| DateFormats.ParseDdMmYy | src/integration/data_preprocessing.py:93-101 | a `ddmmyy` string that parses gives a real date within the pandas timestamp range; a field `int()` rejects or a date that does not exist gives an error |
| DateFormats.SliceFields | src/integration/data_preprocessing.py:93-95 | the slices `[0:2]`, `[2:4]` and `[4:]` of six characters are its three two-character fields |
| DateFormats.ParseDdMmYyFields | src/integration/data_preprocessing.py:93-101 | once `int()` reads the three fields, the parse is the date of their values (year 2000 + yy) |
| DateFormats.DateFromFields | src/integration/data_preprocessing.py:101 | `pd.to_datetime` of day, month and year succeeds exactly on a real date within the timestamp range, and gives that date |
| DateFormats.DateOfInts | src/integration/data_preprocessing.py:93-101 | a date built from the three fields is a real date within the timestamp range |
| DateFormats.DateOfIntsCentury | src/integration/data_preprocessing.py:95-101 | the day, month and two-digit year of a 2000-2099 date give it back |
| DateFormats.DateOfIntsNegative | src/integration/data_preprocessing.py:95-101 | a negative two-digit year `-y` gives the date in year 2000 - y, for 1991-2000 |
| DateFormats.ParseDdMmYySignedYear | src/integration/data_preprocessing.py:93-101 | `ddmm-y` parses to the date in year 2000 - y |
| DateFormats.ParseDdMmYyOfFormat | src/integration/data_preprocessing.py:93-95 | `%d%m%y` of a date in 2000-2099 parses back to that date |
| DateFormats.MaFileNameMiddle | src/integration/data_preprocessing.py:93 | the slice `[2:-4]` of `MA<ddmmyy>.csv` is the `ddmmyy` part |
| DateFormats.ParseMaFileNameOfFormat | src/integration/data_preprocessing.py:92-101 | `MA<ddmmyy>.csv` of a date in 2000-2099 parses back to that date |
| DateFormats.MaFileNameWindow | src/integration/data_preprocessing.py:95 | the round trip holds exactly for years 2000-2099 |
| DateFormats.MaFileNameExample | src/integration/data_preprocessing.py:92-95 | `MA010423.csv` parses to 1 April 2023 |
| DateFormats.MaFileNameBlankDay | src/integration/data_preprocessing.py:92-101 | `int()` reads a blank day digit as zero: `MA 1mmyy.csv` parses to day 1..9 of that month |
| DateFormats.MaFileNameSignedYear | src/integration/data_preprocessing.py:92-101 | `MAddmm-y.csv` parses to the date in year 2000 - y, so `MA0104-5.csv` is 1 April 1995 |
| NseDataFetcher.LatestTradingDayUnique | src/extraction/nse_data_fetcher.py:68-82 | there is only one latest trading day before a date |
| NseDataFetcher.PreviousTradingDay | src/extraction/nse_data_fetcher.py:68-82 | the result is strictly before today and not a holiday, and every date between them is a holiday: it is the latest trading day before today |
| NseDataFetcher.NothingBetweenPrev | src/extraction/nse_data_fetcher.py:77 | no date lies strictly between yesterday and today, so the search starts with nothing skipped |
| NseDataFetcher.StepBackOverHoliday | src/extraction/nse_data_fetcher.py:79-80 | stepping back one day over a holiday keeps every skipped date a holiday |
| NseDataFetcher.TagSector | src/extraction/nse_data_fetcher.py:108 | every row keeps its symbol and gets the sector name, one row per input row |
| NseDataFetcher.Constituents | src/extraction/nse_data_fetcher.py:95-99 | every row of the status-200 branch carries the sector name |
| NseDataFetcher.ConstituentsAppend | src/extraction/nse_data_fetcher.py:98 | the branch keeps a payload entry exactly when its priority is not 1, and keeps the payload order |
| NseDataFetcher.ConstituentsMember | src/extraction/nse_data_fetcher.py:95-99 | a symbol is listed exactly when the payload has an entry for it with priority other than 1 |
| NseDataFetcher.FetchSector | src/extraction/nse_data_fetcher.py:84-112 | status 200 gives the constituents; otherwise the snapshot's symbols, each re-tagged, or no rows without a snapshot; every row carries the sector name |
| NseDataFetcher.FallbackPathIsFolder | src/extraction/nse_data_fetcher.py:13 | the path the fallback reads ends in `/` and is not the snapshot file saved under it |
| NseDataFetcher.FetchSectorAsWritten | src/extraction/nse_data_fetcher.py:102-112 | as written, the call raises exactly on a failed request whose fallback read fails other than by a missing file |
| NseDataFetcher.FallbackAsWrittenRaises | src/extraction/nse_data_fetcher.py:104-110 | once the snapshot folder exists, every failed request raises as written, while the corrected fetch returns the re-tagged snapshot |
| NseDataFetcher.FetchSectorAgrees | src/extraction/nse_data_fetcher.py:84-112 | the corrected fetch returns what the source returns wherever the source does not raise |
| NseDataFetcher.SnapshotOf | src/extraction/nse_data_fetcher.py:102-110 | a read of the snapshot gives rows exactly when it does not fail |
| NseDataFetcher.FetchAllAsWritten | src/extraction/nse_data_fetcher.py:180-184 | the as-written sector loop raises exactly when the fallback read raises and some request fails, and otherwise gives the corrected loop's results |
| NseDataFetcher.CombineSectorData | src/extraction/nse_data_fetcher.py:114-120 | the combined table has as many rows as all sectors together |
| NseDataFetcher.FetchAll | src/extraction/nse_data_fetcher.py:180-184 | one result per entry of the sector table, result `i` being `fetch_sector_data` of sector `i` |
| NseDataFetcher.FetchSectors | src/extraction/nse_data_fetcher.py:180-184 | the loop calls `fetch_sector_data` once per sector, in table order, and collects the results |
| NseDataFetcher.TaggedBlock | src/extraction/nse_data_fetcher.py:114-120 | a frame whose rows all carry one sector name keeps that name on its rows inside the concatenation |
| NseDataFetcher.CombinedBlocks | src/extraction/nse_data_fetcher.py:180-187 | sector `i`'s rows sit in the combined table as one block, in sector-table order, each tagged with sector `i`'s name |
| NseDataFetcher.DashedBhavDownload | src/extraction/nse_data_fetcher.py:214-219 | the dashed-then-replaced spelling requests the same bhav URL and folder as `%d%m%Y` |
| NseDataFetcher.DashedMaDownload | src/extraction/nse_data_fetcher.py:215-224 | the dashed-then-replaced spelling requests the same MA URL and folder as `%d%m%y` |
| NseDataFetcher.LastIndexOf | src/extraction/nse_data_fetcher.py:141 | `rfind` gives the last position of the character, or -1 when it does not occur |
| NseDataFetcher.LastIndexOfAppend | src/extraction/nse_data_fetcher.py:141 | appending text without the character does not move its last occurrence |
| NseDataFetcher.DownloadedFileName | src/extraction/nse_data_fetcher.py:141 | the saved name is a tail of the answering URL, and without redirection it holds no `/` |
| NseDataFetcher.JoinPath | src/extraction/nse_data_fetcher.py:142 | `os.path.join` ends with the name, and a name not starting with `/` comes after the folder |
| NseDataFetcher.DownloadCsvFile | src/extraction/nse_data_fetcher.py:133-152 | nothing is written exactly on a status other than 200; on status 200 the call raises exactly when the joined path names a folder (an empty name, a trailing `/`, `.` or `..`), and otherwise writes the payload verbatim at the folder joined with the response URL from position `rfind('/')+1` of the requested URL |
| NseDataFetcher.ShortRedirectRaises | src/extraction/nse_data_fetcher.py:140-149 | a status-200 answer from a URL no longer than the requested URL's folder part gives an empty name, and opening the folder raises |
| NseDataFetcher.FileNameIsLastSegment | src/extraction/nse_data_fetcher.py:141-142 | without redirection the saved name is the last path segment of the URL |
| NseDataFetcher.SavedUnderOwnName | src/extraction/nse_data_fetcher.py:140-149 | a report whose URL ends in a file name without `/`, answered without redirection, is saved in its folder under that file name |
| NseDataFetcher.MaReportRoundTrip | src/extraction/nse_data_fetcher.py:141-152 | an MA report is saved as `MA<ddmmyy>.csv` in its folder, and that name parses back to its date for 2000-2099 |
| NseDataFetcher.BhavReportFileName | src/extraction/nse_data_fetcher.py:141-152 | a bhav report is saved as `sec_bhavdata_full_<ddmmyyyy>.csv` in its folder |
| NseDataFetcher.NoSlashInName | src/extraction/nse_data_fetcher.py:203-208 | a stem, digits and extension without `/` make a file name without `/` |
| NseDataFetcher.UrlShape | src/extraction/nse_data_fetcher.py:203-208 | a report URL is the archive folder followed by a file name without `/`, whose digits stand just before the extension |
| NseDataFetcher.BhavUrl | src/extraction/nse_data_fetcher.py:203 | the bhav URL starts with the archive folder, holds no `/` after it, and its eight characters before `.csv` are `%d%m%Y` |
| NseDataFetcher.MaUrl | src/extraction/nse_data_fetcher.py:208 | the MA URL is the archive folder followed by exactly `MA<%d%m%y>.csv`, with no `/` after the folder |
| NseDataFetcher.IsHoliday | src/extraction/nse_data_fetcher.py:58-66 | a date string is a holiday when it is a value of the stored calendar |
| NseDataFetcher.IsHolidayOfSavedCalendar | src/extraction/nse_data_fetcher.py:58-66 | against the calendar the holiday fetch saves, the test on a date's spelling holds exactly on the listed holidays and on the Saturdays and Sundays of the fetched year |
| NseDataFetcher.DailyFetch | src/extraction/nse_data_fetcher.py:154-225 | over the corrected sector fetch, the combined table is built from every sector in order; on a holiday no report is requested; otherwise the bhav and MA reports of today, then those of the latest trading day before today, or, when that day is outside the pandas timestamp range, `pd.to_datetime` raises after today's two requests |
| NseDataFetcher.PreviousDayDownloads | src/extraction/nse_data_fetcher.py:212-224 | the second pair of requests is the bhav and MA reports of the latest trading day before today when that day is a pandas timestamp; otherwise `pd.to_datetime` raises and nothing is requested |
| NseHolidayFetcher.ParseHolidayCell | src/extraction/nse_holiday_fetcher.py:30-31 | a stripped cell that parses is a real date within the pandas timestamp range, and the stripped cell is exactly its `%d-%b-%Y` spelling |
| NseHolidayFetcher.ParseHolidays | src/extraction/nse_holiday_fetcher.py:30-31 | every cell is stripped and parsed, in order; the conversion fails exactly when some cell does not parse |
| NseHolidayFetcher.DatesWithWeekday | src/extraction/nse_holiday_fetcher.py:34-35 | the range gives only real dates within its bounds on the requested weekday, strictly ascending |
| NseHolidayFetcher.DatesWithWeekdayComplete | src/extraction/nse_holiday_fetcher.py:34-35 | every date within the bounds on that weekday is generated |
| NseHolidayFetcher.YearWeekdays | src/extraction/nse_holiday_fetcher.py:33-35 | the Saturdays (Sundays) generated are exactly the year's Saturdays (Sundays), ascending |
| NseHolidayFetcher.WeekdaysInYear | src/extraction/nse_holiday_fetcher.py:34-35 | every generated weekend date lies in the current year |
| NseHolidayFetcher.FormatAll | src/extraction/nse_holiday_fetcher.py:41 | every entry is spelled `%d-%b-%Y`, one per date, in order |
| NseHolidayFetcher.FormatAllMember | src/extraction/nse_holiday_fetcher.py:41 | a date's spelling is in a spelled column exactly when the date is in the column |
| NseHolidayFetcher.FetchTradingHolidayData | src/extraction/nse_holiday_fetcher.py:12-48 | nothing is saved exactly when the status is not 200; with status 200 it fails exactly when some cell does not parse, and otherwise exactly when `date_range` cannot span the year (years outside 1678-2261) |
| NseHolidayFetcher.SavedCalendarLayout | src/extraction/nse_holiday_fetcher.py:40-41 | the calendar is the stripped remote cells in order, then the Saturdays, then the Sundays, and its length is the sum of the three |
| NseHolidayFetcher.SavedCalendarParts | src/extraction/nse_holiday_fetcher.py:32-41 | a saved calendar is the respelled remote holidays, then the spelled Saturdays, then the spelled Sundays |
| NseHolidayFetcher.FormattedParts | src/extraction/nse_holiday_fetcher.py:38-41 | in that concatenation the stripped remote cells come first, in order, followed by the two spelled weekend columns |
| NseHolidayFetcher.RemoteCellsRespelled | src/extraction/nse_holiday_fetcher.py:29-41 | respelling the parsed remote holidays gives back the stripped cells |
| NseHolidayFetcher.CalendarMembership | src/extraction/nse_holiday_fetcher.py:26-44 | a date spelled `dd-Mon-yyyy` is in the calendar exactly when it is a remote holiday or a Saturday or Sunday of the current year |
| NseHolidayFetcher.SpelledTimestampsCast | src/extraction/nse_holiday_fetcher.py:41 | the `%d-%b-%Y` spellings of timestamp dates are all read back by `pd.to_datetime` |
| NseHolidayFetcher.RemoteCellsCast | src/extraction/nse_holiday_fetcher.py:30-41 | the respelled remote holidays are all read back by `pd.to_datetime` |
| NseHolidayFetcher.WeekendsCast | src/extraction/nse_holiday_fetcher.py:33-41 | the spelled Saturdays and Sundays of a year `date_range` accepts are all read back by `pd.to_datetime` |
| NseHolidayFetcher.SavedCalendarCasts | src/extraction/nse_holiday_fetcher.py:26-44 | every entry of a saved calendar is read back by `pd.to_datetime`, so `isin` against it never falls back to objects |
| NseHolidayFetcher.FailedRequestWritesNothing | src/extraction/nse_holiday_fetcher.py:47-48 | on a failed request no calendar is written |
| NseStockHistFetcher.DaysFrom | src/extraction/nse_stock_hist_fetcher.py:54-75 | the visited dates are real dates from the start to the end; the range is empty exactly when the start is after the end |
| NseStockHistFetcher.DaysFromSpec | src/extraction/nse_stock_hist_fetcher.py:54-75 | a date is visited exactly when it lies between start and end inclusive, and visits are strictly ascending |
| NseStockHistFetcher.DaysFromConsecutive | src/extraction/nse_stock_hist_fetcher.py:75 | consecutive visits are exactly one day apart |
| NseStockHistFetcher.TradingDayTest | src/extraction/nse_stock_hist_fetcher.py:57 | the loop's test selects exactly the real dates whose spelling is not in the calendar |
| NseStockHistFetcher.TradingDays | src/extraction/nse_stock_hist_fetcher.py:54-58 | the non-holiday dates of the range are real dates |
| NseStockHistFetcher.TradingDaysSpec | src/extraction/nse_stock_hist_fetcher.py:54-75 | the downloaded dates are exactly the non-holiday dates from start to end, strictly ascending |
| NseStockHistFetcher.FilterOrder | src/extraction/nse_stock_hist_fetcher.py:57-58 | skipping holidays keeps the remaining dates in their relative order |
| NseStockHistFetcher.DownloadsFor | src/extraction/nse_stock_hist_fetcher.py:61-71 | each date gets exactly two requests: its bhav report, then its MA report |
| NseStockHistFetcher.DownloadsStep | src/extraction/nse_stock_hist_fetcher.py:57-71 | one more date visited adds its two requests exactly when it is not a holiday |
| NseStockHistFetcher.DaysFromUnfold | src/extraction/nse_stock_hist_fetcher.py:54-75 | a non-empty range is its first date followed by the range from the next day |
| NseStockHistFetcher.DaysFromStep | src/extraction/nse_stock_hist_fetcher.py:54-75 | the dates seen and the dates still ahead make up the whole range at every step |
| NseStockHistFetcher.Backfill | src/extraction/nse_stock_hist_fetcher.py:51-75 | the loop issues, in date order, the two requests of every non-holiday date from start to end, and no others; download outcomes are not traced |
| NseStockHistFetcher.EmptyRange | src/extraction/nse_stock_hist_fetcher.py:54 | a start after the end requests nothing |
| NseStockHistFetcher.HistMain | src/extraction/nse_stock_hist_fetcher.py:23-75 | the backfill requests the reports of every trading day from 01-Apr-2023 to today; download outcomes are not traced |
| NseStockHistFetcher.ParseStartDate | src/extraction/nse_stock_hist_fetcher.py:48 | `START_DATE` parses to 1 April 2023 |
| NseStockHistFetcher.SpellStartDate | src/extraction/nse_stock_hist_fetcher.py:23 | `START_DATE` is the `%d-%b-%Y` spelling of 1 April 2023 |
| DataPreprocessing.SectorListIsSnapshot | src/integration/data_preprocessing.py:9-13 | the transform reads the sector list from the file the daily fetch saves, and the report folders it downloads into |
| DataPreprocessing.RowsOf | src/integration/data_preprocessing.py:26-29 | one frame per listed file, frame `k` being the rows of file `k` |
| DataPreprocessing.ReadFrames | src/integration/data_preprocessing.py:20-29 | the read loop gives the frames of the `.csv` entries, in listing order |
| DataPreprocessing.ConcatFrames | src/integration/data_preprocessing.py:32 | `pd.concat` raises exactly on an empty list; otherwise it has all the rows |
| DataPreprocessing.IsEquity | src/integration/data_preprocessing.py:37-39 | a row is kept when its stripped `SERIES` is `EQ` |
| DataPreprocessing.EquitySeries | src/integration/data_preprocessing.py:37-39 | a kept row's `SERIES` is `EQ` with only whitespace around it |
| DataPreprocessing.CoerceNumber | src/integration/data_preprocessing.py:41-42 | a number is kept; text converts exactly when `int()` reads it, and a digit string with whitespace around it converts to its digit value |
| DataPreprocessing.CleanBhavRow | src/integration/data_preprocessing.py:35-43 | a kept row converts exactly when price and quantity convert and `pd.to_datetime` reads the stripped `DATE1`; it keeps symbol and other columns, and its date is a timestamp spelled by the stripped `DATE1` |
| DataPreprocessing.CleanBhav | src/integration/data_preprocessing.py:39-43 | on success one cleaned row per `EQ` row, carrying that row's symbol |
| DataPreprocessing.CleanBhavSpec | src/integration/data_preprocessing.py:35-43 | the cleaned table has exactly one row per row whose stripped `SERIES` is `EQ`, in order; it fails exactly when some such row does not convert |
| DataPreprocessing.Symbols | src/integration/data_preprocessing.py:59 | the `SYMBOL` column, row for row |
| DataPreprocessing.SymbolIn | src/integration/data_preprocessing.py:60 | `isin` keeps a row exactly when its symbol is listed |
| DataPreprocessing.SymbolIs | src/integration/data_preprocessing.py:63 | the join key: sector-list rows with the row's symbol |
| DataPreprocessing.CuratedRows | src/integration/data_preprocessing.py:56 | only sector-list rows of NIFTY 50, NIFTY NEXT 50 and NIFTY MIDCAP 50 are kept |
| DataPreprocessing.CuratedBhav | src/integration/data_preprocessing.py:59-60 | only cleaned rows whose symbol a curated sector-list row lists are kept |
| DataPreprocessing.LeftMerge | src/integration/data_preprocessing.py:63 | a left merge has at least one row per left row |
| DataPreprocessing.MatchRows | src/integration/data_preprocessing.py:63 | a left-merged bhav row yields at least one row |
| DataPreprocessing.MatchRowsMember | src/integration/data_preprocessing.py:63 | a bhav row is paired with exactly the sectors of its symbol's sector-list rows, or with NaN when it has none |
| DataPreprocessing.LeftMergeMember | src/integration/data_preprocessing.py:63 | the merge's rows are exactly the pairings of the left rows |
| DataPreprocessing.LeftMergeCount | src/integration/data_preprocessing.py:63 | when every left row has a match, the merge has one row per (left row, matching right row) pair |
| DataPreprocessing.MergeBlocks | src/integration/data_preprocessing.py:63 | one block of merged rows per left row, in left order |
| DataPreprocessing.MergeBlocksSnoc | src/integration/data_preprocessing.py:63 | the blocks of all left rows are those of all but the last, then the last row's block |
| DataPreprocessing.MatchRowsCount | src/integration/data_preprocessing.py:63 | a left row with a match is paired once with each right row of its symbol |
| DataPreprocessing.PairInMerge | src/integration/data_preprocessing.py:63 | a left row and a right row of its symbol are paired in the merge |
| DataPreprocessing.NumberBhav | src/integration/data_preprocessing.py:65-68 | `ID_BHAV` is the row position 0..n-1, with `SYMBOL, SECTOR, DATE, LAST_PRICE` from the merged row |
| DataPreprocessing.FactBhavData | src/integration/data_preprocessing.py:53-68 | at least one fact row per kept bhav row, with `ID_BHAV` numbering the rows from 0 |
| DataPreprocessing.CuratedBhavMember | src/integration/data_preprocessing.py:56-60 | a cleaned row survives exactly when a NIFTY 50 / NEXT 50 / MIDCAP 50 sector-list row lists its symbol |
| DataPreprocessing.SymbolsMember | src/integration/data_preprocessing.py:59 | a symbol is in the `SYMBOL` column exactly when some row carries it |
| DataPreprocessing.FactBhavSound | src/integration/data_preprocessing.py:53-68 | every fact row has id equal to its position, a non-null curated sector that lists its symbol, and the date and price of a cleaned row of that symbol |
| DataPreprocessing.FactBhavComplete | src/integration/data_preprocessing.py:56-68 | every pairing of a cleaned row with a curated sector-list row of its symbol is a fact row |
| DataPreprocessing.FactBhavCount | src/integration/data_preprocessing.py:60-63 | the fact table has one row per (kept row, matching curated sector-list row) pair |
| DataPreprocessing.CleanedBhavdata | src/integration/data_preprocessing.py:17-76 | the staged dates are real dates; with no `.csv` file the stage fails |
| DataPreprocessing.CleanBhavDates | src/integration/data_preprocessing.py:37-43 | every cleaned row carries a real date within the pandas timestamp range |
| DataPreprocessing.CleanBhavdataFiles | src/integration/data_preprocessing.py:17-76 | the stage returns the staging table and `fact_bhavdata` of the specification, or its error |
| DataPreprocessing.DateMaFile | src/integration/data_preprocessing.py:92-101 | a report fails exactly when its name does not parse; otherwise every row gets the name's date |
| DataPreprocessing.ReadMaFrames | src/integration/data_preprocessing.py:82-104 | the read loop fails exactly when some listed report's name does not parse, and otherwise gives the dated frames in listing order |
| DataPreprocessing.CleanMa | src/integration/data_preprocessing.py:110-112 | one cleaned row per report row |
| DataPreprocessing.CleanMaSpec | src/integration/data_preprocessing.py:110-112 | `SECTOR` is the upper-cased `INDEX`, with no lower-case letter left; the date and prices are kept |
| DataPreprocessing.Sectors | src/integration/data_preprocessing.py:126 | the `SECTOR` column, row for row |
| DataPreprocessing.SectorIn | src/integration/data_preprocessing.py:127 | `isin` keeps an MA row exactly when its sector is listed |
| DataPreprocessing.ListedMa | src/integration/data_preprocessing.py:126-127 | only MA rows whose sector the sector list names are kept |
| DataPreprocessing.FactMaData | src/integration/data_preprocessing.py:126-132 | the fact table never has more rows than the MA table |
| DataPreprocessing.FactMaSpec | src/integration/data_preprocessing.py:126-132 | an MA row is kept exactly when some sector-list row has its sector; kept rows stay in order with `ID_MA` 0..n-1, `SECTOR`, `DATE`, `CLOSE` |
| DataPreprocessing.CleanedMaReport | src/integration/data_preprocessing.py:79-141 | with no `.csv` file the stage fails |
| DataPreprocessing.BadMaFileNameFails | src/integration/data_preprocessing.py:92-95 | one listed report whose name does not parse makes the whole stage fail |
| DataPreprocessing.CleanMaReportFiles | src/integration/data_preprocessing.py:79-141 | the stage fails exactly when the specification does, and otherwise returns its tables |
| DataPreprocessing.Quarter | src/integration/data_preprocessing.py:159 | the quarter is 1..4 and contains the month |
| DataPreprocessing.Dates | src/integration/data_preprocessing.py:154 | the `DATE` column, row for row |
| DataPreprocessing.DistinctDatesValid | src/integration/data_preprocessing.py:154 | the distinct dates of real dates are real dates |
| DataPreprocessing.CalendarSpelling | src/integration/data_preprocessing.py:163 | an entry `pd.to_datetime` reads as a date is that date's `%d-%b-%Y` spelling; when every entry reads, a date up to year 9999 whose spelling is an entry is read from it |
| DataPreprocessing.DateFlag | src/integration/data_preprocessing.py:163 | when some calendar entry does not cast to a timestamp, `isin` compares as objects and every `FLAG` is `Working`; when all cast, `FLAG` is `Holiday` when some entry reads as the date, and for years up to 9999 exactly then |
| DataPreprocessing.FlagOfSavedCalendar | src/integration/data_preprocessing.py:163 | against the calendar the holiday fetch saves, `FLAG` is `Holiday` exactly when the daily fetch's holiday test holds, that is on the listed holidays and the Saturdays and Sundays of the fetched year |
| DataPreprocessing.DimDatetime | src/integration/data_preprocessing.py:154-166 | one row per distinct date, in order, with `ID_DATETIME` its position and `WEEKDAY` the date's `weekday()` |
| DataPreprocessing.DimDatetimeSpec | src/integration/data_preprocessing.py:154-166 | each dimension row has `ID_DATETIME` equal to its position, a date of the table not seen earlier, matching day/month/year, `WEEKDAY` the date's `weekday()`, the quarter of its month, and `FLAG` `Holiday` exactly when the calendar casts to timestamps and the date's `%d-%b-%Y` spelling is an entry |
| DataPreprocessing.DimDatetimeComplete | src/integration/data_preprocessing.py:154-166 | every date of the table has a dimension row |
| DataPreprocessing.DimDatetimeOrder | src/integration/data_preprocessing.py:154-166 | the dimension rows follow the first occurrences of their dates in the table |
| DataPreprocessing.TransformMain | src/integration/data_preprocessing.py:175-191 | both cleanings run; the date dimension is built from the cleaned bhav table exactly when that cleaning succeeded |

## Left out

- HTTP and sessions are not modelled: the cookie request, the headers and JSON decoding. A response is given as its status, its payload rows (`data` or `CM`, empty when absent) and its resolved URL.
- File I/O is not modelled: `read_csv`, `to_csv`, `os.listdir`, `os.makedirs` and the binary write. A listing is given as file names with their parsed rows, and written tables are returned.
- The CSV layout options of the MA read (`skiprows`, `usecols`, `nrows`) are not modelled. The report rows are given.
- Logging and `print` are not modelled.
- `datetime.now()` is a parameter. The daily fetch calls it several times, and a run that crosses midnight could see two different days; the model uses one date throughout.
- `scripts/run_script.py` only launches the two stages as subprocesses and is not part of this model.
- `get_cookie_value` and `save_to_csv` are I/O only. The saved snapshot is the combined table returned by `DailyFetch`.
- NseDataFetcher.PreviousTradingDay: requires that some trading day precedes today. Without one the source loops until the date underflows year 1.
- NseDataFetcher.DailyFetch: requires today's year to be at most 9999, the largest year `datetime.now()` can return. The pandas timestamp limit on the previous trading day is modelled: outside it the call raises.
- NseDataFetcher.DailyFetch: the sector loop is modelled over the corrected sector fetch (see Findings). As written, once the snapshot folder exists a failed constituents request raises and ends `main` before anything is saved or requested; FetchAllAsWritten and FallbackAsWrittenRaises model that loop.
- NseDataFetcher.DailyFetch: gives the requests `main` makes, not their outcomes. A download that raises (DownloadCsvFile's `Raised` outcome) ends `main` before the later requests, which the model does not trace.
- NseStockHistFetcher.Backfill: gives the requests the loop makes, not their outcomes. The loop has no `try`, so a download that raises (DownloadCsvFile's `Raised` outcome) ends the backfill, and no later date is requested; the model does not trace that.
- NseStockHistFetcher.HistMain: likewise lists every trading day's requests; a raising download ends the source's loop early, which is not traced.
- NseDataFetcher.DownloadCsvFile: folders other than the target are not modelled. A derived name holding `/` whose subfolder does not exist raises `FileNotFoundError` in the source but is written here.
- NseStockHistFetcher.HistMain: requires today's year to be at most 9999, the largest year `datetime.now()` can return.
- NseHolidayFetcher.FetchTradingHolidayData: requires the current year to be within 1..9999, the years `datetime.now().year` can take. The narrower pandas `date_range` limit (1678-2261) is modelled as the `DateRangeFailed` outcome.
- DataPreprocessing.CleanBhavRow: prices and quantities are integers. `astype(float)` on decimal points, exponents, `nan` and `inf` is not modelled; a text cell converts as `int()` reads it.
- Text.PyInt: strips the number with `str.strip`'s whitespace, the `str.isspace` set. That set includes U+001C to U+001F, which `int()` does not skip, so the model reads `'\x1c5'` as 5 where `int()` raises. The non-ASCII decimal digits `int()` accepts are not modelled.
- DateFormats.ParseDMonY: accepts only the two-digit day, three-letter month and four-digit year shape the pipeline writes. The leniency of `strptime` (one-digit day, any letter case) is not modelled.
- DataPreprocessing.CleanBhavRow: `pd.to_datetime` on `DATE` with an inferred format is modelled as the `dd-Mon-yyyy` parse, the spelling the bhav reports use.
- DateFormats.FormatDMonY: years below 1000 are zero-padded to four digits, which Python's `%Y` does not do on every platform; the pipeline never formats such years.
- The ISO week column of `dim_datetime` (`WEEK`) is not modelled.
- DataPreprocessing.DateFlag: `isin` on the timestamp column casts the whole calendar column to timestamps, and when any entry fails the cast (an unreadable string or a date outside the timestamp range) compares as objects, so no date is flagged; both are modelled, but the cast reads entries with the `dd-Mon-yyyy` reader only, the spelling the saved calendar uses, where pandas infers the format. That string casting in `isin` is deprecated from pandas 2.1 on is not modelled.
- Text.Upper: upper-cases ASCII letters only. Unicode case mapping and the NaN cells `str.upper` passes through are not modelled.
- NseDataFetcher.IsHoliday: `date in holiday_df.values` is modelled over the single `HolidayDate` column the calendar file has.

## Findings

| source | as written | input that shows it | evidently intended | confidence | as-written member | corrected member |
|---|---|---|---|---|---|---|
| src/extraction/nse_data_fetcher.py:104-112 | on a failed constituents request the fallback reads `COMBINED_DATA_PATH`, the folder `data/raw/sector_list/`, and catches only `FileNotFoundError`; once the folder exists the read raises `IsADirectoryError`, which escapes | any status other than 200 after a first successful run has created `data/raw/sector_list/combined_data.csv` | read the saved snapshot `data/raw/sector_list/combined_data.csv` and re-tag its rows with the sector name, or return no rows when the file is missing | high (not executed) | NseDataFetcher.FetchSectorAsWritten, NseDataFetcher.FallbackAsWrittenRaises, NseDataFetcher.FetchAllAsWritten | NseDataFetcher.FetchSector, NseDataFetcher.FetchSectorAgrees |
