/**
 * The transform stage: combine the downloaded full bhav reports into a cleaned
 * equity table and a fact table of the curated indices' constituents, combine
 * the market-activity reports into a sector table and its fact table, and build
 * the date dimension. The folder listings, the CSV files read and the sector
 * list and holiday calendar are parameters; the CSV writes are the values
 * returned.
 */
module DataPreprocessing {
  import opened Wrappers
  import opened Seqs
  import opened Text
  import opened Calendar
  import opened DateFormats
  import opened NseDataFetcher
  import NseHolidayFetcher

  const BhavdataFolderPath := "data/raw/sec_bhavdata_full/"
  const MaReportFolderPath := "data/raw/ma_report/"
  const SectorListFilePath := "data/raw/sector_list/combined_data.csv"

  /** The transform stage reads the sector list from the file the daily fetch saves it to. */
  lemma {:induction false} SectorListIsSnapshot()
    ensures SectorListFilePath == SnapshotFile
    ensures BhavdataFolderPath == FullBhavdataPath && MaReportFolderPath == MaReportPath
  {
  }

  // ---------------------------------------------------------------------------
  // Reading the folders

  /** A CSV cell as read: a number, or text that a later conversion may parse. */
  datatype Cell = Num(value: int) | Str(text: string)

  /** A directory entry and the rows `pd.read_csv` gives for it. */
  datatype CsvFile<R> = CsvFile(name: string, rows: seq<R>)

  predicate IsCsvFile<R>(f: CsvFile<R>) {
    |f.name| >= 4 && f.name[|f.name| - 4..] == ".csv"
  }

  /** The listing comprehension: the entries whose name ends in `.csv`, in listing order. */
  function CsvFiles<R>(files: seq<CsvFile<R>>): seq<CsvFile<R>> {
    Filter(files, IsCsvFile)
  }

  /** The frames of the listed files, in order. */
  function RowsOf<R>(files: seq<CsvFile<R>>): (r: seq<seq<R>>)
    ensures |r| == |files| && forall k :: 0 <= k < |files| ==> r[k] == files[k].rows
  {
    seq(|files|, k requires 0 <= k < |files| => files[k].rows)
  }

  /** The read loop of `clean_bhavdata_files`: one frame per listed CSV file, in listing order. */
  method ReadFrames<R>(files: seq<CsvFile<R>>) returns (frames: seq<seq<R>>)
    ensures |frames| == |CsvFiles(files)|
    ensures forall k :: 0 <= k < |frames| ==> frames[k] == CsvFiles(files)[k].rows
  {
    var csvFiles := CsvFiles(files);
    frames := [];
    for i := 0 to |csvFiles|
      invariant |frames| == i
      invariant forall k :: 0 <= k < i ==> frames[k] == csvFiles[k].rows
    {
      frames := frames + [csvFiles[i].rows];
    }
  }

  /** `pd.concat(frames, ignore_index=True)`, which raises on an empty list. */
  function ConcatFrames<R>(frames: seq<seq<R>>): (r: Result<seq<R>>)
    ensures r.Err? <==> |frames| == 0
    ensures r.Ok? ==> |r.value| == TotalLength(frames)
  {
    if |frames| == 0 then Err("No objects to concatenate") else Ok(Concat(frames))
  }

  // ---------------------------------------------------------------------------
  // Full bhav reports

  /** A row of a full bhav report, with the columns the stage touches named. */
  datatype RawBhavRow = RawBhavRow(
    symbol: string, series: string, date1: string,
    prevClose: Cell, lastPrice: Cell, avgPrice: Cell, turnoverLacs: Cell,
    delivQty: Cell, delivPer: Cell, others: seq<Cell>)

  /**
   * A cleaned row: `SERIES`, `PREV_CLOSE`, `AVG_PRICE`, `TURNOVER_LACS` and
   * `DELIV_PER` dropped, `DATE1` renamed `DATE` and parsed, the price and the
   * delivered quantity converted to numbers.
   */
  datatype BhavRow = BhavRow(symbol: string, date: Date, lastPrice: int, delivQty: int, others: seq<Cell>)

  /**
   * `astype(float)` / `astype(int)` on one cell: a number passes; text is read
   * as Python's `int()` reads it (surrounding whitespace, a sign, underscores
   * between digits), and anything else raises.
   */
  function CoerceNumber(c: Cell): (r: Result<int>)
    ensures c.Num? ==> r == Ok(c.value)
    ensures c.Str? ==> (r.Ok? <==> PyInt(c.text).Some?)
    ensures c.Str? && |Strip(c.text)| > 0 && AllDigits(Strip(c.text)) ==> r == Ok(DigitsValue(Strip(c.text)))
  {
    match c
    case Num(n) => Ok(n)
    case Str(t) =>
      if |Strip(t)| > 0 && AllDigits(Strip(t)) then
        PyIntOfDigits(Strip(t));
        PyIntStrip(t);
        Ok(DigitsValue(Strip(t)))
      else
        match PyInt(t)
        case Some(n) => Ok(n)
        case None => Err("invalid literal")
  }

  /** The series filter: the stripped `SERIES` is `EQ`. */
  predicate IsEquity(r: RawBhavRow) {
    Strip(r.series) == "EQ"
  }

  /** A kept row's `SERIES` is `EQ` with nothing but whitespace around it. */
  lemma {:induction false} EquitySeries(r: RawBhavRow)
    requires IsEquity(r)
    ensures exists i, j :: (&& 0 <= i <= j <= |r.series| && r.series[i..j] == "EQ"
      && (forall k :: 0 <= k < i ==> IsSpace(r.series[k]))
      && (forall k :: j <= k < |r.series| ==> IsSpace(r.series[k])))
  {
    StripSlice(r.series);
  }

  /** Conversion of one kept row; a cell that does not convert makes the stage raise. */
  function CleanBhavRow(raw: RawBhavRow): (r: Result<BhavRow>)
    ensures r.Ok? <==>
      (CoerceNumber(raw.lastPrice).Ok? && CoerceNumber(raw.delivQty).Ok? && ToTimestampDMonY(Strip(raw.date1)).Ok?)
    ensures r.Ok? ==>
      (&& r.value.symbol == raw.symbol && r.value.others == raw.others
       && Valid(r.value.date) && InTimestampRange(r.value.date) && FormatDMonY(r.value.date) == Strip(raw.date1)
       && r.value.lastPrice == CoerceNumber(raw.lastPrice).value
       && r.value.delivQty == CoerceNumber(raw.delivQty).value)
  {
    match (CoerceNumber(raw.lastPrice), CoerceNumber(raw.delivQty), ToTimestampDMonY(Strip(raw.date1)))
    case (Ok(price), Ok(qty), Ok(d)) =>
      FormatToTimestampDMonY(Strip(raw.date1));
      Ok(BhavRow(raw.symbol, d, price, qty, raw.others))
    case _ => Err("conversion failed")
  }

  /** The cleaning of the combined bhav table: keep the `EQ` rows, then convert them. */
  function CleanBhav(rows: seq<RawBhavRow>): (r: Result<seq<BhavRow>>)
    ensures r.Ok? ==> |r.value| == |Filter(rows, IsEquity)|
    ensures r.Ok? ==> forall k :: 0 <= k < |r.value| ==> r.value[k].symbol == Filter(rows, IsEquity)[k].symbol
  {
    MapAll(Filter(rows, IsEquity), CleanBhavRow)
  }

  /**
   * The cleaned table has one row per `EQ` row, in order, carrying its symbol
   * and its date; a row of another series never reaches it, and the cleaning
   * fails exactly when some `EQ` row does not convert.
   */
  lemma {:induction false} CleanBhavSpec(rows: seq<RawBhavRow>, raw: RawBhavRow)
    ensures raw in Filter(rows, IsEquity) <==> raw in rows && Strip(raw.series) == "EQ"
    ensures CleanBhav(rows).Err? <==> exists k :: 0 <= k < |Filter(rows, IsEquity)| && CleanBhavRow(Filter(rows, IsEquity)[k]).Err?
    ensures CleanBhav(rows).Ok? ==>
      var eq, cleaned := Filter(rows, IsEquity), CleanBhav(rows).value;
      |cleaned| == |eq| && forall k :: 0 <= k < |eq| ==>
        (cleaned[k].symbol == eq[k].symbol && FormatDMonY(cleaned[k].date) == Strip(eq[k].date1))
  {
    FilterMember(rows, IsEquity, raw);
  }

  // ---------------------------------------------------------------------------
  // Fact table of the curated indices

  const CuratedSectors: seq<string> := ["NIFTY 50", "NIFTY NEXT 50", "NIFTY MIDCAP 50"]

  predicate IsCurated(s: SectorRow) {
    s.sector in CuratedSectors
  }

  function Symbols(rows: seq<SectorRow>): (r: seq<string>)
    ensures |r| == |rows| && forall k :: 0 <= k < |rows| ==> r[k] == rows[k].symbol
  {
    seq(|rows|, k requires 0 <= k < |rows| => rows[k].symbol)
  }

  /** `df['SYMBOL'].isin(symbols)` as a row selector. */
  function SymbolIn(symbols: seq<string>): (keep: BhavRow -> bool)
    ensures forall r :: keep(r) <==> r.symbol in symbols
  {
    (r: BhavRow) => r.symbol in symbols
  }

  /** The sector-list rows of one symbol, as a row selector. */
  function SymbolIs(symbol: string): (keep: SectorRow -> bool)
    ensures forall s :: keep(s) <==> s.symbol == symbol
  {
    (s: SectorRow) => s.symbol == symbol
  }

  /** A row of the left merge: the bhav row and the `SECTOR` it was joined with (NaN: `None`). */
  datatype MergedRow = MergedRow(row: BhavRow, sector: Option<string>)

  /** The merged rows of one left row: one per matching right row, in right order, or one with no sector. */
  function MatchRows(row: BhavRow, right: seq<SectorRow>): (r: seq<MergedRow>)
    ensures |r| >= 1
  {
    var m := Filter(right, SymbolIs(row.symbol));
    if |m| == 0 then [MergedRow(row, None)]
    else seq(|m|, k requires 0 <= k < |m| => MergedRow(row, Some(m[k].sector)))
  }

  /** The merged rows of each left row, one block per left row, in left order. */
  function MergeBlocks(left: seq<BhavRow>, right: seq<SectorRow>): (r: seq<seq<MergedRow>>)
    ensures |r| == |left| && forall i :: 0 <= i < |left| ==> r[i] == MatchRows(left[i], right)
  {
    seq(|left|, i requires 0 <= i < |left| => MatchRows(left[i], right))
  }

  /** `pd.merge(left, right[['SYMBOL', 'SECTOR']], on='SYMBOL', how='left')`. */
  function LeftMerge(left: seq<BhavRow>, right: seq<SectorRow>): (r: seq<MergedRow>)
    ensures |r| >= |left|
  {
    TotalLengthAtLeast(MergeBlocks(left, right));
    Concat(MergeBlocks(left, right))
  }

  /** The blocks of all left rows are those of all but the last, then the last row's block. */
  lemma {:induction false} MergeBlocksSnoc(left: seq<BhavRow>, right: seq<SectorRow>)
    requires |left| > 0
    ensures var n := |left|;
      MergeBlocks(left, right) == MergeBlocks(left[..n - 1], right) + [MatchRows(left[n - 1], right)]
  {
  }

  /** The merged rows of one left row are its pairings with the right rows of its symbol. */
  lemma {:induction false} MatchRowsMember(row: BhavRow, right: seq<SectorRow>, x: MergedRow)
    ensures x in MatchRows(row, right) && x.sector.Some? <==>
      x.row == row && x.sector.Some? && SectorRow(row.symbol, x.sector.value) in right
    ensures x in MatchRows(row, right) && x.sector.None? <==>
      x == MergedRow(row, None) && forall s :: s in right ==> s.symbol != row.symbol
  {
    var keep := SymbolIs(row.symbol);
    var m := Filter(right, keep);
    if x.sector.Some? && x.row == row && SectorRow(row.symbol, x.sector.value) in right {
      FilterMember(right, keep, SectorRow(row.symbol, x.sector.value));
      var k :| 0 <= k < |m| && m[k] == SectorRow(row.symbol, x.sector.value);
      assert MatchRows(row, right)[k] == x;
    }
    if x in MatchRows(row, right) && |m| > 0 {
      var k :| 0 <= k < |m| && MatchRows(row, right)[k] == x;
      assert m[k] in m;
      FilterMember(right, keep, m[k]);
    }
    if |m| == 0 {
      forall s | s in right
        ensures s.symbol != row.symbol
      {
        FilterMember(right, keep, s);
      }
    } else {
      assert m[0] in m;
    }
  }

  /** The merge produces exactly the rows of the left rows' pairings. */
  lemma {:induction false} LeftMergeMember(left: seq<BhavRow>, right: seq<SectorRow>, x: MergedRow)
    ensures x in LeftMerge(left, right) <==> exists i :: 0 <= i < |left| && x in MatchRows(left[i], right)
  {
    var blocks := MergeBlocks(left, right);
    ConcatMember(blocks, x);
    if x in Concat(blocks) {
      var i :| 0 <= i < |blocks| && x in blocks[i];
      assert blocks[i] == MatchRows(left[i], right);
    }
    if exists i :: 0 <= i < |left| && x in MatchRows(left[i], right) {
      var i :| 0 <= i < |left| && x in MatchRows(left[i], right);
      assert x in blocks[i];
    }
  }

  /** Number of merged rows: for each left row, the number of right rows with its symbol. */
  function MatchCount(left: seq<BhavRow>, right: seq<SectorRow>): nat {
    if |left| == 0 then 0
    else MatchCount(left[..|left| - 1], right) + |Filter(right, SymbolIs(left[|left| - 1].symbol))|
  }

  /** Some right row has the symbol. */
  predicate HasMatch(right: seq<SectorRow>, symbol: string) {
    exists s :: s in right && s.symbol == symbol
  }

  /** Every left row has a match, so the merge has one row per (left row, matching right row) pair. */
  lemma {:induction false} LeftMergeCount(left: seq<BhavRow>, right: seq<SectorRow>)
    requires forall i :: 0 <= i < |left| ==> HasMatch(right, left[i].symbol)
    ensures |LeftMerge(left, right)| == MatchCount(left, right)
    decreases |left|
  {
    if |left| > 0 {
      var n := |left|;
      var front, last := left[..n - 1], left[n - 1];
      var frontBlocks := MergeBlocks(front, right);
      MergeBlocksSnoc(left, right);
      assert (frontBlocks + [MatchRows(last, right)])[..n - 1] == frontBlocks;
      LeftMergeCount(front, right);
      MatchRowsCount(last, right);
    }
  }

  /** A left row with a match is paired once with each right row of its symbol. */
  lemma {:induction false} MatchRowsCount(row: BhavRow, right: seq<SectorRow>)
    requires HasMatch(right, row.symbol)
    ensures |MatchRows(row, right)| == |Filter(right, SymbolIs(row.symbol))|
  {
    var s :| s in right && s.symbol == row.symbol;
    FilterMember(right, SymbolIs(row.symbol), s);
  }

  /** A row of `fact_bhavdata`. */
  datatype FactBhavRow = FactBhavRow(idBhav: int, symbol: string, sector: Option<string>, date: Date, lastPrice: int)

  /** `reset_index`, the `ID_BHAV` rename and the projection. */
  function NumberBhav(merged: seq<MergedRow>): (r: seq<FactBhavRow>)
    ensures |r| == |merged|
    ensures forall k :: 0 <= k < |r| ==> r[k] == FactBhavRow(k, merged[k].row.symbol, merged[k].sector, merged[k].row.date, merged[k].row.lastPrice)
  {
    seq(|merged|, k requires 0 <= k < |merged| =>
      FactBhavRow(k, merged[k].row.symbol, merged[k].sector, merged[k].row.date, merged[k].row.lastPrice))
  }

  /** The curated part of the sector list. */
  function CuratedRows(sectorList: seq<SectorRow>): (r: seq<SectorRow>)
    ensures |r| <= |sectorList|
    ensures forall s :: s in r ==> s in sectorList && s.sector in CuratedSectors
  {
    Filter(sectorList, IsCurated)
  }

  /** The cleaned rows whose symbol is a constituent of a curated index. */
  function CuratedBhav(cleaned: seq<BhavRow>, sectorList: seq<SectorRow>): (r: seq<BhavRow>)
    ensures |r| <= |cleaned|
    ensures forall c :: c in r ==> c in cleaned && c.symbol in Symbols(CuratedRows(sectorList))
  {
    Filter(cleaned, SymbolIn(Distinct(Symbols(CuratedRows(sectorList)))))
  }

  /** `fact_bhavdata`. */
  function FactBhavData(cleaned: seq<BhavRow>, sectorList: seq<SectorRow>): (r: seq<FactBhavRow>)
    ensures |r| >= |CuratedBhav(cleaned, sectorList)|
    ensures forall k :: 0 <= k < |r| ==> r[k].idBhav == k
  {
    NumberBhav(LeftMerge(CuratedBhav(cleaned, sectorList), CuratedRows(sectorList)))
  }

  /** A symbol survives the curated filter exactly when a curated sector-list row lists it. */
  lemma {:induction false} CuratedBhavMember(cleaned: seq<BhavRow>, sectorList: seq<SectorRow>, c: BhavRow)
    ensures c in CuratedBhav(cleaned, sectorList) <==>
      c in cleaned && exists s :: s in sectorList && IsCurated(s) && s.symbol == c.symbol
  {
    var curated := CuratedRows(sectorList);
    var symbols := Distinct(Symbols(curated));
    FilterMember(cleaned, SymbolIn(symbols), c);
    DistinctMember(Symbols(curated), c.symbol);
    SymbolsMember(curated, c.symbol);
    if exists s :: s in sectorList && IsCurated(s) && s.symbol == c.symbol {
      var s :| s in sectorList && IsCurated(s) && s.symbol == c.symbol;
      FilterMember(sectorList, IsCurated, s);
    }
    if exists s :: s in curated && s.symbol == c.symbol {
      var s :| s in curated && s.symbol == c.symbol;
      FilterMember(sectorList, IsCurated, s);
    }
  }

  /** A symbol is in the `SYMBOL` column exactly when some row carries it. */
  lemma {:induction false} SymbolsMember(rows: seq<SectorRow>, symbol: string)
    ensures symbol in Symbols(rows) <==> exists s :: s in rows && s.symbol == symbol
  {
    if symbol in Symbols(rows) {
      var k :| 0 <= k < |rows| && Symbols(rows)[k] == symbol;
      assert rows[k] in rows;
    }
    if exists s :: s in rows && s.symbol == symbol {
      var s :| s in rows && s.symbol == symbol;
      var k :| 0 <= k < |rows| && rows[k] == s;
      assert Symbols(rows)[k] == symbol;
    }
  }

  /**
   * Every row of `fact_bhavdata` has id equal to its position, a sector that is
   * one of the three curated indices and lists the row's symbol, and the date
   * and price of a cleaned row of that symbol.
   */
  lemma {:induction false} FactBhavSound(cleaned: seq<BhavRow>, sectorList: seq<SectorRow>, k: int)
    requires 0 <= k < |FactBhavData(cleaned, sectorList)|
    ensures var f := FactBhavData(cleaned, sectorList)[k];
      && f.idBhav == k
      && f.sector.Some? && f.sector.value in CuratedSectors
      && SectorRow(f.symbol, f.sector.value) in sectorList
      && exists c :: c in cleaned && c.symbol == f.symbol && c.date == f.date && c.lastPrice == f.lastPrice
  {
    var curated := CuratedRows(sectorList);
    var listed := CuratedBhav(cleaned, sectorList);
    var merged := LeftMerge(listed, curated);
    var x := merged[k];
    LeftMergeMember(listed, curated, x);
    var i :| 0 <= i < |listed| && x in MatchRows(listed[i], curated);
    assert listed[i] in listed;
    CuratedBhavMember(cleaned, sectorList, listed[i]);
    var s :| s in sectorList && IsCurated(s) && s.symbol == listed[i].symbol;
    FilterMember(sectorList, IsCurated, s);
    MatchRowsMember(listed[i], curated, x);
    if x.sector.Some? {
      FilterMember(sectorList, IsCurated, SectorRow(listed[i].symbol, x.sector.value));
    }
  }

  /**
   * Every pairing of a cleaned row with a curated sector-list row of its
   * symbol appears in `fact_bhavdata`.
   */
  lemma {:induction false} FactBhavComplete(cleaned: seq<BhavRow>, sectorList: seq<SectorRow>, c: BhavRow, s: SectorRow)
    requires c in cleaned && s in sectorList && IsCurated(s) && s.symbol == c.symbol
    ensures exists k :: (0 <= k < |FactBhavData(cleaned, sectorList)| &&
      FactBhavData(cleaned, sectorList)[k] == FactBhavRow(k, c.symbol, Some(s.sector), c.date, c.lastPrice))
  {
    var curated := CuratedRows(sectorList);
    var listed := CuratedBhav(cleaned, sectorList);
    CuratedBhavMember(cleaned, sectorList, c);
    FilterMember(sectorList, IsCurated, s);
    PairInMerge(listed, curated, c, s);
    var merged := LeftMerge(listed, curated);
    var k :| 0 <= k < |merged| && merged[k] == MergedRow(c, Some(s.sector));
    assert FactBhavData(cleaned, sectorList)[k] == FactBhavRow(k, c.symbol, Some(s.sector), c.date, c.lastPrice);
  }

  /** A left row and a right row of its symbol are paired in the merge. */
  lemma {:induction false} PairInMerge(left: seq<BhavRow>, right: seq<SectorRow>, c: BhavRow, s: SectorRow)
    requires c in left && s in right && s.symbol == c.symbol
    ensures MergedRow(c, Some(s.sector)) in LeftMerge(left, right)
  {
    var x := MergedRow(c, Some(s.sector));
    assert SectorRow(c.symbol, s.sector) == s;
    MatchRowsMember(c, right, x);
    var i :| 0 <= i < |left| && left[i] == c;
    LeftMergeMember(left, right, x);
  }

  /** `fact_bhavdata` has one row per (kept row, curated sector-list row of its symbol) pair. */
  lemma {:induction false} FactBhavCount(cleaned: seq<BhavRow>, sectorList: seq<SectorRow>)
    ensures |FactBhavData(cleaned, sectorList)| == MatchCount(CuratedBhav(cleaned, sectorList), CuratedRows(sectorList))
  {
    var curated := CuratedRows(sectorList);
    var listed := CuratedBhav(cleaned, sectorList);
    forall i | 0 <= i < |listed|
      ensures HasMatch(curated, listed[i].symbol)
    {
      assert listed[i] in listed;
      CuratedBhavMember(cleaned, sectorList, listed[i]);
      var s :| s in sectorList && IsCurated(s) && s.symbol == listed[i].symbol;
      FilterMember(sectorList, IsCurated, s);
      assert s in curated;
    }
    LeftMergeCount(listed, curated);
  }

  /** What `clean_bhavdata_files` writes: the staging table and `fact_bhavdata`. */
  datatype BhavOutputs = BhavOutputs(staging: seq<BhavRow>, fact: seq<FactBhavRow>)

  /** The whole of `clean_bhavdata_files`; an error stands for the exception it logs. */
  function CleanedBhavdata(files: seq<CsvFile<RawBhavRow>>, sectorList: seq<SectorRow>): (r: Result<BhavOutputs>)
    ensures r.Ok? ==> forall k :: 0 <= k < |r.value.staging| ==> Valid(r.value.staging[k].date)
    ensures |CsvFiles(files)| == 0 ==> r.Err?
  {
    match ConcatFrames(RowsOf(CsvFiles(files)))
    case Err(e) => Err(e)
    case Ok(rows) =>
      match CleanBhav(rows)
      case Err(e) => Err(e)
      case Ok(cleaned) =>
        CleanBhavDates(rows);
        Ok(BhavOutputs(cleaned, FactBhavData(cleaned, sectorList)))
  }

  /** Every cleaned row carries a real date that a pandas timestamp can hold. */
  lemma {:induction false} CleanBhavDates(rows: seq<RawBhavRow>)
    requires CleanBhav(rows).Ok?
    ensures forall k :: 0 <= k < |CleanBhav(rows).value| ==>
      Valid(CleanBhav(rows).value[k].date) && InTimestampRange(CleanBhav(rows).value[k].date)
  {
    var eq, cleaned := Filter(rows, IsEquity), CleanBhav(rows).value;
    forall k | 0 <= k < |cleaned|
      ensures Valid(cleaned[k].date) && InTimestampRange(cleaned[k].date)
    {
      assert CleanBhavRow(eq[k]) == Ok(cleaned[k]);
    }
  }

  /** `clean_bhavdata_files`. */
  method CleanBhavdataFiles(files: seq<CsvFile<RawBhavRow>>, sectorList: seq<SectorRow>) returns (r: Result<BhavOutputs>)
    ensures r == CleanedBhavdata(files, sectorList)
  {
    var frames := ReadFrames(files);
    assert frames == RowsOf(CsvFiles(files));
    var combined := ConcatFrames(frames);
    if combined.Err? {
      return Err(combined.reason);
    }
    var cleaned := CleanBhav(combined.value);
    if cleaned.Err? {
      return Err(cleaned.reason);
    }
    r := Ok(BhavOutputs(cleaned.value, FactBhavData(cleaned.value, sectorList)));
  }

  // ---------------------------------------------------------------------------
  // Market-activity reports

  /** A row of the market-activity block read from a report. */
  datatype RawMaRow = RawMaRow(index: string, open: Cell, high: Cell, low: Cell, close: Cell, others: seq<Cell>)

  /** A report row with the `DATE` column taken from its file name. */
  datatype DatedMaRow = DatedMaRow(row: RawMaRow, date: Date)

  /** One report: the date its name encodes, on every row; a name that does not parse raises. */
  function DateMaFile(f: CsvFile<RawMaRow>): (r: Result<seq<DatedMaRow>>)
    ensures r.Err? <==> ParseMaFileName(f.name).Err?
    ensures r.Ok? ==> |r.value| == |f.rows| && forall k :: 0 <= k < |f.rows| ==>
      r.value[k] == DatedMaRow(f.rows[k], ParseMaFileName(f.name).value)
  {
    match ParseMaFileName(f.name)
    case Err(e) => Err(e)
    case Ok(d) => Ok(seq(|f.rows|, k requires 0 <= k < |f.rows| => DatedMaRow(f.rows[k], d)))
  }

  /** The read loop of `clean_ma_report_files`: date every listed report, or raise. */
  method ReadMaFrames(files: seq<CsvFile<RawMaRow>>) returns (r: Result<seq<seq<DatedMaRow>>>)
    ensures r.Err? <==> MapAll(CsvFiles(files), DateMaFile).Err?
    ensures r.Ok? ==> r.value == MapAll(CsvFiles(files), DateMaFile).value
  {
    var csvFiles := CsvFiles(files);
    var frames: seq<seq<DatedMaRow>> := [];
    for i := 0 to |csvFiles|
      invariant MapAll(csvFiles[..i], DateMaFile) == Ok(frames)
    {
      var dated := DateMaFile(csvFiles[i]);
      if dated.Err? {
        MapAllFails(csvFiles, DateMaFile, csvFiles[i]);
        return Err(dated.reason);
      }
      MapAllSnoc(csvFiles, DateMaFile, i, frames);
      frames := frames + [dated.value];
    }
    assert csvFiles[..|csvFiles|] == csvFiles;
    r := Ok(frames);
  }

  /** A row of the combined market-activity table: `INDEX` upper-cased and renamed `SECTOR`. */
  datatype MaRow = MaRow(sector: string, date: Date, open: Cell, high: Cell, low: Cell, close: Cell)

  /** The cleaning of the combined report rows. */
  function CleanMa(rows: seq<DatedMaRow>): (r: seq<MaRow>)
    ensures |r| == |rows|
  {
    seq(|rows|, k requires 0 <= k < |rows| =>
      var raw := rows[k].row;
      MaRow(Upper(raw.index), rows[k].date, raw.open, raw.high, raw.low, raw.close))
  }

  /**
   * Each cleaned row keeps its report's date and prices, and its sector is the
   * index name in upper case: no lower-case ASCII letter remains, and
   * upper-casing again changes nothing.
   */
  lemma {:induction false} CleanMaSpec(rows: seq<DatedMaRow>, k: int)
    requires 0 <= k < |rows|
    ensures var m := CleanMa(rows)[k];
      && m.sector == Upper(rows[k].row.index) && Upper(m.sector) == m.sector
      && (forall j :: 0 <= j < |m.sector| ==> !('a' <= m.sector[j] <= 'z'))
      && m.date == rows[k].date && m.close == rows[k].row.close
  {
    UpperIdempotent(rows[k].row.index);
  }

  /** A row of `fact_MA_report`. */
  datatype FactMaRow = FactMaRow(idMa: int, sector: string, date: Date, close: Cell)

  function Sectors(rows: seq<SectorRow>): (r: seq<string>)
    ensures |r| == |rows| && forall k :: 0 <= k < |rows| ==> r[k] == rows[k].sector
  {
    seq(|rows|, k requires 0 <= k < |rows| => rows[k].sector)
  }

  /** `df['SECTOR'].isin(sectors)` as a row selector. */
  function SectorIn(sectors: seq<string>): (keep: MaRow -> bool)
    ensures forall m :: keep(m) <==> m.sector in sectors
  {
    (m: MaRow) => m.sector in sectors
  }

  /** The market-activity rows of sectors the sector list names. */
  function ListedMa(ma: seq<MaRow>, sectorList: seq<SectorRow>): (r: seq<MaRow>)
    ensures |r| <= |ma|
    ensures forall m :: m in r ==> m in ma && m.sector in Sectors(sectorList)
  {
    Filter(ma, SectorIn(Distinct(Sectors(sectorList))))
  }

  /** `fact_MA_report`. */
  function FactMaData(ma: seq<MaRow>, sectorList: seq<SectorRow>): (r: seq<FactMaRow>)
    ensures |r| <= |ma|
  {
    var kept := ListedMa(ma, sectorList);
    seq(|kept|, k requires 0 <= k < |kept| => FactMaRow(k, kept[k].sector, kept[k].date, kept[k].close))
  }

  /**
   * A market-activity row is kept exactly when some sector-list row has its
   * sector; the kept rows stay in order and are numbered from 0.
   */
  lemma {:induction false} FactMaSpec(ma: seq<MaRow>, sectorList: seq<SectorRow>, m: MaRow)
    ensures m in ListedMa(ma, sectorList) <==> m in ma && exists s :: s in sectorList && s.sector == m.sector
    ensures var kept, fact := ListedMa(ma, sectorList), FactMaData(ma, sectorList);
      |fact| == |kept| && forall k :: 0 <= k < |kept| ==>
        fact[k] == FactMaRow(k, kept[k].sector, kept[k].date, kept[k].close)
  {
    var sectors := Distinct(Sectors(sectorList));
    FilterMember(ma, SectorIn(sectors), m);
    if m.sector in sectors {
      var k :| 0 <= k < |Sectors(sectorList)| && Sectors(sectorList)[k] == m.sector;
      assert sectorList[k] in sectorList;
    }
    if exists s :: s in sectorList && s.sector == m.sector {
      var s :| s in sectorList && s.sector == m.sector;
      var k :| 0 <= k < |sectorList| && sectorList[k] == s;
      assert Sectors(sectorList)[k] == m.sector;
    }
  }

  /** What `clean_ma_report_files` writes: the staging table and `fact_MA_report`. */
  datatype MaOutputs = MaOutputs(staging: seq<MaRow>, fact: seq<FactMaRow>)

  /** The whole of `clean_ma_report_files`; an error stands for the exception it logs. */
  function CleanedMaReport(files: seq<CsvFile<RawMaRow>>, sectorList: seq<SectorRow>): (r: Result<MaOutputs>)
    ensures |CsvFiles(files)| == 0 ==> r.Err?
  {
    match MapAll(CsvFiles(files), DateMaFile)
    case Err(e) => Err(e)
    case Ok(frames) =>
      match ConcatFrames(frames)
      case Err(e) => Err(e)
      case Ok(rows) => Ok(MaOutputs(CleanMa(rows), FactMaData(CleanMa(rows), sectorList)))
  }

  /** One listed report whose name does not parse makes the whole cleaning fail. */
  lemma {:induction false} BadMaFileNameFails(files: seq<CsvFile<RawMaRow>>, sectorList: seq<SectorRow>, f: CsvFile<RawMaRow>)
    requires f in files && IsCsvFile(f) && ParseMaFileName(f.name).Err?
    ensures CleanedMaReport(files, sectorList).Err?
  {
    FilterMember(files, IsCsvFile, f);
    assert DateMaFile(f).Err?;
    MapAllFails(CsvFiles(files), DateMaFile, f);
  }

  /** `clean_ma_report_files`. */
  method CleanMaReportFiles(files: seq<CsvFile<RawMaRow>>, sectorList: seq<SectorRow>) returns (r: Result<MaOutputs>)
    ensures r.Err? <==> CleanedMaReport(files, sectorList).Err?
    ensures r.Ok? ==> r == CleanedMaReport(files, sectorList)
  {
    var frames := ReadMaFrames(files);
    if frames.Err? {
      return Err(frames.reason);
    }
    var combined := ConcatFrames(frames.value);
    if combined.Err? {
      return Err(combined.reason);
    }
    var cleaned := CleanMa(combined.value);
    r := Ok(MaOutputs(cleaned, FactMaData(cleaned, sectorList)));
  }

  // ---------------------------------------------------------------------------
  // Date dimension

  datatype Flag = Holiday | Working

  /** A row of `dim_datetime`; the ISO week column is not part of this model. */
  datatype DimDateRow = DimDateRow(
    idDatetime: int, date: Date, day: int, weekday: int, month: int, quarter: int, year: int, flag: Flag)

  /** `dt.quarter`. */
  function Quarter(month: int): (q: int)
    requires 1 <= month <= 12
    ensures 1 <= q <= 4 && 3 * q - 2 <= month <= 3 * q
  {
    (month - 1) / 3 + 1
  }

  function Dates(rows: seq<BhavRow>): (r: seq<Date>)
    ensures |r| == |rows| && forall k :: 0 <= k < |rows| ==> r[k] == rows[k].date
  {
    seq(|rows|, k requires 0 <= k < |rows| => rows[k].date)
  }

  /** The distinct dates of valid rows are valid. */
  lemma {:induction false} DistinctDatesValid(rows: seq<BhavRow>)
    requires forall k :: 0 <= k < |rows| ==> Valid(rows[k].date)
    ensures forall k :: 0 <= k < |Distinct(Dates(rows))| ==> Valid(Distinct(Dates(rows))[k])
  {
    var dates := Distinct(Dates(rows));
    forall k | 0 <= k < |dates|
      ensures Valid(dates[k])
    {
      assert dates[k] in Dates(rows);
    }
  }

  /**
   * A calendar entry that `pd.to_datetime` reads as a date is that date's
   * `%d-%b-%Y` spelling; when every entry reads, a date of years 1 to 9999
   * whose spelling is an entry is read from it.
   */
  lemma {:induction false} CalendarSpelling(d: Date, calendar: seq<string>)
    requires Valid(d)
    ensures (exists k :: 0 <= k < |calendar| && ToTimestampDMonY(calendar[k]) == Ok(d)) ==> FormatDMonY(d) in calendar
    ensures CastsToTimestamps(calendar) && d.year <= 9999 && FormatDMonY(d) in calendar ==>
      exists k :: 0 <= k < |calendar| && ToTimestampDMonY(calendar[k]) == Ok(d)
  {
    if exists k :: 0 <= k < |calendar| && ToTimestampDMonY(calendar[k]) == Ok(d) {
      var k :| 0 <= k < |calendar| && ToTimestampDMonY(calendar[k]) == Ok(d);
      FormatToTimestampDMonY(calendar[k]);
    }
    if CastsToTimestamps(calendar) && d.year <= 9999 && FormatDMonY(d) in calendar {
      var k :| 0 <= k < |calendar| && calendar[k] == FormatDMonY(d);
      assert ToTimestampDMonY(calendar[k]).Ok?;
      FormatToTimestampDMonY(calendar[k]);
      ParseFormatDMonY(d);
    }
  }

  /**
   * `FLAG` by `isin` on the timestamp column: the calendar's strings are first
   * cast to timestamps, and a date is `Holiday` when some entry is that date.
   * When any entry fails the cast, the comparison falls back to objects, where
   * no timestamp equals a string, and every date is `Working`.
   */
  function DateFlag(d: Date, calendar: seq<string>): (f: Flag)
    requires Valid(d)
    ensures !CastsToTimestamps(calendar) ==> f == Working
    ensures CastsToTimestamps(calendar) && (exists k :: 0 <= k < |calendar| && ToTimestampDMonY(calendar[k]) == Ok(d)) ==> f == Holiday
    ensures CastsToTimestamps(calendar) && d.year <= 9999 ==>
      (f == Holiday <==> exists k :: 0 <= k < |calendar| && ToTimestampDMonY(calendar[k]) == Ok(d))
  {
    CalendarSpelling(d, calendar);
    if CastsToTimestamps(calendar) && FormatDMonY(d) in calendar then Holiday else Working
  }

  /**
   * Against the calendar the holiday fetch saves, which always casts, `FLAG`
   * agrees with the daily fetch's holiday test: `Holiday` exactly on the
   * exchange's holidays and the Saturdays and Sundays of the fetched year.
   */
  lemma {:induction false} FlagOfSavedCalendar(response: NseHolidayFetcher.HolidayResponse, currentYear: int, d: Date)
    requires 1 <= currentYear <= 9999
    requires NseHolidayFetcher.FetchTradingHolidayData(response, currentYear).Saved?
    requires Valid(d) && d.year <= 9999
    ensures var cal := NseHolidayFetcher.FetchTradingHolidayData(response, currentYear).calendar;
      && (DateFlag(d, cal) == Holiday <==> IsHoliday(cal, FormatDMonY(d)))
      && (DateFlag(d, cal) == Holiday <==>
            (|| d in NseHolidayFetcher.ParseHolidays(response.tradingDates).value
             || (d.year == currentYear && (Weekday(d) == NseHolidayFetcher.Saturday || Weekday(d) == NseHolidayFetcher.Sunday))))
  {
    NseHolidayFetcher.SavedCalendarCasts(response, currentYear);
    IsHolidayOfSavedCalendar(response, currentYear, d);
  }

  /** `dim_datetime` from the cleaned bhav table. */
  function DimDatetime(rows: seq<BhavRow>, calendar: seq<string>): (r: seq<DimDateRow>)
    requires forall k :: 0 <= k < |rows| ==> Valid(rows[k].date)
    ensures |r| == |Distinct(Dates(rows))|
    ensures forall k :: 0 <= k < |r| ==>
      (&& r[k].idDatetime == k && r[k].date == Distinct(Dates(rows))[k]
       && Valid(r[k].date) && r[k].weekday == Weekday(r[k].date))
  {
    DistinctDatesValid(rows);
    var dates := Distinct(Dates(rows));
    seq(|dates|, k requires 0 <= k < |dates| =>
      var d := dates[k];
      DimDateRow(k, d, d.day, Weekday(d), d.month, Quarter(d.month), d.year, DateFlag(d, calendar)))
  }

  /**
   * `dim_datetime` has one row per distinct date of the table, numbered from 0,
   * in order of first occurrence, no date twice; its calendar fields agree with
   * the date, and the flag is `Holiday` exactly when the calendar casts to
   * timestamps and lists the date.
   */
  lemma {:induction false} DimDatetimeSpec(rows: seq<BhavRow>, calendar: seq<string>, k: int)
    requires forall j :: 0 <= j < |rows| ==> Valid(rows[j].date)
    requires 0 <= k < |DimDatetime(rows, calendar)|
    ensures var dim := DimDatetime(rows, calendar); var r := dim[k];
      && r.idDatetime == k
      && (exists j :: 0 <= j < |rows| && rows[j].date == r.date)
      && (forall i :: 0 <= i < k ==> dim[i].date != r.date)
      && r.day == r.date.day && r.month == r.date.month && r.year == r.date.year
      && r.weekday == Weekday(r.date) && 1 <= r.quarter <= 4 && 3 * r.quarter - 2 <= r.month <= 3 * r.quarter
      && (r.flag == Holiday <==> CastsToTimestamps(calendar) && FormatDMonY(r.date) in calendar)
  {
    var dates := Distinct(Dates(rows));
    DistinctDatesValid(rows);
    assert dates[k] in Dates(rows);
  }

  /** Every date of the table has its row in `dim_datetime`. */
  lemma {:induction false} DimDatetimeComplete(rows: seq<BhavRow>, calendar: seq<string>, j: int)
    requires forall i :: 0 <= i < |rows| ==> Valid(rows[i].date)
    requires 0 <= j < |rows|
    ensures exists k :: 0 <= k < |DimDatetime(rows, calendar)| && DimDatetime(rows, calendar)[k].date == rows[j].date
  {
    var dates := Distinct(Dates(rows));
    assert Dates(rows)[j] in dates;
    var k :| 0 <= k < |dates| && dates[k] == Dates(rows)[j];
    assert DimDatetime(rows, calendar)[k].date == rows[j].date;
  }

  /** The rows of `dim_datetime` follow the first occurrences of their dates. */
  lemma {:induction false} DimDatetimeOrder(rows: seq<BhavRow>, calendar: seq<string>)
    requires forall i :: 0 <= i < |rows| ==> Valid(rows[i].date)
    ensures forall a, b :: 0 <= a < b < |DimDatetime(rows, calendar)| ==>
      FirstIndex(Dates(rows), DimDatetime(rows, calendar)[a].date) < FirstIndex(Dates(rows), DimDatetime(rows, calendar)[b].date)
  {
    var dim := DimDatetime(rows, calendar);
    forall a, b | 0 <= a < b < |dim|
      ensures FirstIndex(Dates(rows), dim[a].date) < FirstIndex(Dates(rows), dim[b].date)
    {
      DistinctOrderPair(Dates(rows), a, b);
    }
  }

  // ---------------------------------------------------------------------------
  // main

  /** What the transform stage writes. */
  datatype TransformOutputs = TransformOutputs(
    bhav: Result<BhavOutputs>, ma: Result<MaOutputs>, dimDatetime: Option<seq<DimDateRow>>)

  /**
   * `main`: clean the bhav reports, clean the market-activity reports, then
   * build the date dimension from the cleaned bhav table; when the bhav
   * cleaning failed it returned nothing and no dimension is written.
   */
  method TransformMain(bhavFiles: seq<CsvFile<RawBhavRow>>, maFiles: seq<CsvFile<RawMaRow>>,
                       sectorList: seq<SectorRow>, calendar: seq<string>)
    returns (out: TransformOutputs)
    ensures out.bhav == CleanedBhavdata(bhavFiles, sectorList)
    ensures out.ma.Err? <==> CleanedMaReport(maFiles, sectorList).Err?
    ensures out.ma.Ok? ==> out.ma == CleanedMaReport(maFiles, sectorList)
    ensures out.dimDatetime.Some? <==> out.bhav.Ok?
    ensures out.bhav.Ok? ==> out.dimDatetime == Some(DimDatetime(out.bhav.value.staging, calendar))
  {
    var bhav := CleanBhavdataFiles(bhavFiles, sectorList);
    var ma := CleanMaReportFiles(maFiles, sectorList);
    var dims: Option<seq<DimDateRow>> := None;
    if bhav.Ok? {
      dims := Some(DimDatetime(bhav.value.staging, calendar));
    }
    out := TransformOutputs(bhav, ma, dims);
  }
}
