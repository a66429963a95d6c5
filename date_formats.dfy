/**
 * The date shapes the pipeline writes and reads back:
 *  - `%d-%b-%Y` (`01-Apr-2023`): the holiday calendar and every `is_holiday` query;
 *  - `%d%m%Y` (`01042023`): the full bhav report's URL;
 *  - `%d%m%y` (`010423`): the market-activity report's URL and file name;
 *  - `MAddmmyy.csv`: the file name the transform stage parses back into a date.
 */
module DateFormats {
  import opened Wrappers
  import opened Text
  import opened Calendar

  const MonthAbbrs: seq<string> :=
    ["Jan", "Feb", "Mar", "Apr", "May", "Jun", "Jul", "Aug", "Sep", "Oct", "Nov", "Dec"]

  /** `%b` in the C locale. */
  function MonthAbbr(m: int): (r: string)
    requires 1 <= m <= 12
    ensures |r| == 3
  {
    MonthAbbrs[m - 1]
  }

  /** The month whose `%b` abbreviation is `s`, searching months `m`..12. */
  function MonthFromAbbr(s: string, m: int := 1): (r: Option<int>)
    requires 1 <= m <= 13
    ensures r.Some? ==> m <= r.value <= 12 && MonthAbbr(r.value) == s
    ensures (exists k :: m <= k <= 12 && MonthAbbr(k) == s) ==> r.Some?
    decreases 13 - m
  {
    if m == 13 then None
    else if MonthAbbr(m) == s then Some(m)
    else MonthFromAbbr(s, m + 1)
  }

  lemma {:induction false} MonthFromAbbrOf(m: int)
    requires 1 <= m <= 12
    ensures MonthFromAbbr(MonthAbbr(m)) == Some(m)
  {
    var r := MonthFromAbbr(MonthAbbr(m));
    assert forall i, j :: 1 <= i < j <= 12 ==> MonthAbbr(i) != MonthAbbr(j);
    assert r.Some? && MonthAbbr(r.value) == MonthAbbr(m);
  }

  /** `d.strftime('%d-%b-%Y')`. */
  function FormatDMonY(d: Date): (r: string)
    requires Valid(d)
    ensures |r| == 11 && r[2] == '-' && r[6] == '-'
  {
    Pad2(d.day) + "-" + MonthAbbr(d.month) + "-" + Pad4(d.year)
  }

  /**
   * `datetime.strptime(s, '%d-%b-%Y')` on the shape the pipeline writes: two
   * day digits, a month abbreviation, four year digits. A string that is not a
   * real date raises, here `Err`.
   */
  function ParseDMonY(s: string): (r: Result<Date>)
    ensures r.Ok? ==> Valid(r.value) && r.value.year <= 9999
  {
    if |s| != 11 || s[2] != '-' || s[6] != '-' then Err("does not match '%d-%b-%Y'")
    else
      match (ParseNat(s[..2]), MonthFromAbbr(s[3..6]), ParseNat(s[7..]))
      case (Some(day), Some(month), Some(year)) =>
        assert Pow10(4) == 10000;
        if Valid(Date(year, month, day)) then Ok(Date(year, month, day))
        else Err("day is out of range for month")
      case _ => Err("does not match '%d-%b-%Y'")
  }

  lemma {:induction false} PadOfDigits2(t: string)
    requires |t| == 2 && AllDigits(t)
    ensures DigitsValue(t) < 100 && Pad2(DigitsValue(t)) == t
  {
    var a, b := t[0], t[1];
    assert t == [a, b];
    DigitsValuePair(a, b);
    DivMod10(DigitValue(a), DigitValue(b));
    CharRoundTrip(a);
    CharRoundTrip(b);
  }

  lemma {:induction false} PadOfDigits4(t: string)
    requires |t| == 4 && AllDigits(t)
    ensures DigitsValue(t) < 10000 && Pad4(DigitsValue(t)) == t
  {
    var hi, lo := t[..2], t[2..];
    PadOfDigits2(hi);
    PadOfDigits2(lo);
    assert t == hi + lo;
    DigitsValueSplit(hi, lo);
    var h, l := DigitsValue(hi), DigitsValue(lo);
    DivMod100(h, l);
    Pad4Halves(100 * h + l);
  }

  /** Parsing what was formatted gives the date back (years 1 to 9999). */
  lemma {:induction false} ParseFormatDMonY(d: Date)
    requires Valid(d) && d.year <= 9999
    ensures ParseDMonY(FormatDMonY(d)) == Ok(d)
  {
    var s := FormatDMonY(d);
    assert s[..2] == Pad2(d.day);
    assert s[3..6] == MonthAbbr(d.month);
    assert s[7..] == Pad4(d.year);
    ParsePad2(d.day);
    ParsePad4(d.year);
    MonthFromAbbrOf(d.month);
  }

  /** Formatting what was parsed gives the string back: the parser accepts one spelling per date. */
  lemma {:induction false} FormatParseDMonY(s: string)
    requires ParseDMonY(s).Ok?
    ensures FormatDMonY(ParseDMonY(s).value) == s
  {
    var d := ParseDMonY(s).value;
    PadOfDigits2(s[..2]);
    PadOfDigits4(s[7..]);
    assert s == s[..2] + "-" + s[3..6] + "-" + s[7..];
  }

  /** Two dates with the same `%d-%b-%Y` spelling are the same date. */
  lemma {:induction false} FormatDMonYInjective(a: Date, b: Date)
    requires Valid(a) && Valid(b) && a.year <= 9999 && b.year <= 9999
    ensures FormatDMonY(a) == FormatDMonY(b) <==> a == b
  {
    ParseFormatDMonY(a);
    ParseFormatDMonY(b);
  }

  /** `s.replace("-", "")`. */
  function RemoveDashes(s: string): (r: string)
    ensures |r| <= |s| && '-' !in r
  {
    if |s| == 0 then []
    else RemoveDashes(s[..|s| - 1]) + (if s[|s| - 1] == '-' then [] else [s[|s| - 1]])
  }

  lemma {:induction false} RemoveDashesOfDigits(s: string)
    requires AllDigits(s)
    ensures RemoveDashes(s) == s
  {
    if |s| > 0 {
      RemoveDashesOfDigits(s[..|s| - 1]);
    }
  }

  lemma {:induction false} RemoveDashesAppend(a: string, b: string)
    ensures RemoveDashes(a + b) == RemoveDashes(a) + RemoveDashes(b)
    decreases |b|
  {
    if |b| > 0 {
      assert (a + b)[..|a + b| - 1] == a + b[..|b| - 1];
      RemoveDashesAppend(a, b[..|b| - 1]);
    } else {
      assert a + b == a;
    }
  }

  /** `d.strftime('%d%m%Y')`: the full bhav report's date. */
  function FormatDdMmYyyy(d: Date): (r: string)
    ensures |r| == 8 && AllDigits(r)
  {
    Pad2(d.day) + Pad2(d.month) + Pad4(d.year)
  }

  /** `d.strftime('%d%m%y')`: the market-activity report's date. */
  function FormatDdMmYy(d: Date): (r: string)
    ensures |r| == 6 && AllDigits(r)
  {
    Pad2(d.day) + Pad2(d.month) + Pad2(d.year % 100)
  }

  lemma {:induction false} RemoveDashesDashed(a: string, b: string, c: string)
    requires AllDigits(a) && AllDigits(b) && AllDigits(c)
    ensures RemoveDashes(a + "-" + b + "-" + c) == a + b + c
  {
    var dash := "-";
    assert RemoveDashes(dash) == [] by {
      assert dash[..0] == [];
    }
    var x1 := a + dash;
    var x2 := x1 + b;
    var x3 := x2 + dash;
    RemoveDashesOfDigits(a);
    RemoveDashesOfDigits(b);
    RemoveDashesOfDigits(c);
    RemoveDashesAppend(a, dash);
    assert RemoveDashes(x1) == a;
    RemoveDashesAppend(x1, b);
    assert RemoveDashes(x2) == a + b;
    RemoveDashesAppend(x2, dash);
    assert RemoveDashes(x3) == a + b;
    RemoveDashesAppend(x3, c);
  }

  /**
   * The backfill spells the dates as `strftime("%d-%m-%Y").replace("-", "")` and
   * `strftime("%d-%m-%y").replace("-", "")`; the daily fetch as `%d%m%Y` and
   * `%d%m%y`. Both give the same strings, and the 6-digit form is the 8-digit
   * one without the century digits.
   */
  lemma {:induction false} CompactFormats(d: Date)
    requires Valid(d)
    ensures RemoveDashes(Pad2(d.day) + "-" + Pad2(d.month) + "-" + Pad4(d.year)) == FormatDdMmYyyy(d)
    ensures RemoveDashes(Pad2(d.day) + "-" + Pad2(d.month) + "-" + Pad2(d.year)) == FormatDdMmYy(d)
    ensures FormatDdMmYy(d) == FormatDdMmYyyy(d)[..4] + FormatDdMmYyyy(d)[6..]
  {
    var a, b, y4, y2 := Pad2(d.day), Pad2(d.month), Pad4(d.year), Pad2(d.year);
    RemoveDashesDashed(a, b, y4);
    RemoveDashesDashed(a, b, y2);
    Pad2Mod(d.year);
    assert FormatDdMmYy(d) == a + b + y2;
    CenturyDigits(d.year);
    var full := a + b + y4;
    assert full[..4] == a + b;
    assert full[6..] == y4[2..];
  }

  lemma {:induction false} CenturyDigits(y: int)
    ensures Pad4(y)[2..] == Pad2(y)
  {
    var m := y % 10000;
    assert Pad4(y)[2..] == Pad2(m % 100);
    ModMod100(y);
    Pad2Mod(y);
  }

  /**
   * The first and the last day whose midnight a pandas timestamp (nanoseconds
   * since 1970 in 64 bits) can hold: 1677-09-21 00:12:43 is the earliest
   * instant, 2262-04-11 23:47:16 the latest.
   */
  const TimestampMin := Date(1677, 9, 22)
  const TimestampMax := Date(2262, 4, 11)

  /** `pd.to_datetime` and `pd.date_range` raise `OutOfBoundsDatetime` for any other day. */
  predicate InTimestampRange(d: Date) {
    NotAfter(TimestampMin, d) && NotAfter(d, TimestampMax)
  }

  /** The years whose 1 January and 31 December are both timestamps. */
  lemma {:induction false} TimestampYears(y: int)
    ensures InTimestampRange(Date(y, 1, 1)) && InTimestampRange(Date(y, 12, 31)) <==> 1678 <= y <= 2261
  {
  }

  /**
   * `pd.to_datetime(s)` on a `dd-Mon-yyyy` string (with or without
   * `format='%d-%b-%Y'`): the date it spells, which must be a timestamp.
   */
  function ToTimestampDMonY(s: string): (r: Result<Date>)
    ensures r.Ok? ==> Valid(r.value) && InTimestampRange(r.value) && r.value.year <= 2262
  {
    match ParseDMonY(s)
    case Err(e) => Err(e)
    case Ok(d) => if InTimestampRange(d) then Ok(d) else Err("OutOfBoundsDatetime")
  }

  /**
   * A date spelled `%d-%b-%Y` reads back through `pd.to_datetime` exactly when
   * it is a timestamp; otherwise the read raises.
   */
  lemma {:induction false} TimestampOfFormatDMonY(d: Date)
    requires Valid(d) && d.year <= 9999
    ensures InTimestampRange(d) ==> ToTimestampDMonY(FormatDMonY(d)) == Ok(d)
    ensures !InTimestampRange(d) ==> ToTimestampDMonY(FormatDMonY(d)).Err?
  {
    ParseFormatDMonY(d);
  }

  /**
   * Casting a column of strings to timestamps, as `isin` on a timestamp column
   * does first, succeeds only when `pd.to_datetime` reads every entry.
   */
  predicate CastsToTimestamps(column: seq<string>) {
    forall k :: 0 <= k < |column| ==> ToTimestampDMonY(column[k]).Ok?
  }

  /** A string `pd.to_datetime` reads is the `%d-%b-%Y` spelling of what it reads. */
  lemma {:induction false} FormatToTimestampDMonY(s: string)
    requires ToTimestampDMonY(s).Ok?
    ensures ParseDMonY(s) == ToTimestampDMonY(s) && FormatDMonY(ToTimestampDMonY(s).value) == s
  {
    FormatParseDMonY(s);
  }

  /** Python's `s[i:j]` for `0 <= i <= j`, which clamps both ends to the string. */
  function Slice(s: string, i: nat, j: nat): (r: string)
    ensures |r| <= |s|
  {
    var hi := if j <= |s| then j else |s|;
    var lo := if i <= hi then i else hi;
    s[lo..hi]
  }

  /**
   * `pd.to_datetime(f'{day}-{month}-{year}', format='%d-%m-%Y')`. The
   * rendered integers match `%d`, `%m` and `%Y` exactly when the day is 1..31,
   * the month 1..12 and the year has four digits, and the parse then rejects a
   * day the month does not have and a day that is not a timestamp; every
   * timestamp has a four-digit year.
   */
  function DateFromFields(day: int, month: int, year: int): (r: Result<Date>)
    ensures r.Ok? ==> r.value == Date(year, month, day) && Valid(r.value) && InTimestampRange(r.value)
    ensures Valid(Date(year, month, day)) && InTimestampRange(Date(year, month, day)) ==> r.Ok?
  {
    var d := Date(year, month, day);
    if !Valid(d) then Err("does not match format '%d-%m-%Y'")
    else if !InTimestampRange(d) then Err("OutOfBoundsDatetime")
    else Ok(d)
  }

  /**
   * The date in the `ddmmyy` part of a market-activity file name: day
   * `int(date_str[:2])`, month `int(date_str[2:4])`, year
   * `2000 + int(date_str[4:])`, then the `%d-%m-%Y` parse. `int()` takes
   * surrounding blanks, a sign and underscores, so ` 10423` and `0104-5` are
   * dates too (1 April 2023 and 1 April 1995).
   */
  function ParseDdMmYy(dateStr: string): (r: Result<Date>)
    ensures r.Ok? ==> Valid(r.value) && InTimestampRange(r.value)
  {
    DateOfInts(PyInt(Slice(dateStr, 0, 2)), PyInt(Slice(dateStr, 2, 4)), PyInt(Slice(dateStr, 4, |dateStr|)))
  }

  /** The date from the three `int()` results; a failed `int()` raises first. */
  function DateOfInts(day: Option<int>, month: Option<int>, yy: Option<int>): (r: Result<Date>)
    ensures r.Ok? ==> Valid(r.value) && InTimestampRange(r.value)
  {
    if day.None? || month.None? || yy.None? then Err("invalid literal for int()")
    else DateFromFields(day.value, month.value, 2000 + yy.value)
  }

  /**
   * The date in a market-activity file name, as the transform stage reads it:
   * `date_str = file[2:-4]`, then the `ddmmyy` parse. The first two
   * characters are not checked.
   */
  function ParseMaFileName(name: string): (r: Result<Date>)
    ensures r.Ok? ==> Valid(r.value) && InTimestampRange(r.value)
  {
    ParseDdMmYy(if |name| >= 6 then name[2..|name| - 4] else "")
  }

  /** The middle of `MA<t>.csv` is `t`. */
  lemma {:induction false} MaFileNameMiddle(t: string)
    ensures var name := "MA" + t + ".csv";
      |name| >= 6 && name[2..|name| - 4] == t
  {
  }

  /** The three two-character fields of a six-character string. */
  lemma {:induction false} SliceFields(a: string, b: string, c: string)
    requires |a| == 2 && |b| == 2 && |c| == 2
    ensures var s := a + b + c;
      Slice(s, 0, 2) == a && Slice(s, 2, 4) == b && Slice(s, 4, |s|) == c
  {
    var s := a + b + c;
    assert s[0..2] == a;
    assert s[2..4] == b;
    assert s[4..6] == c;
  }

  /** The `ddmmyy` parse of a string whose three fields read as integers. */
  lemma {:induction false} ParseDdMmYyFields(s: string, day: int, month: int, yy: int)
    requires PyInt(Slice(s, 0, 2)) == Some(day) && PyInt(Slice(s, 2, 4)) == Some(month)
    requires PyInt(Slice(s, 4, |s|)) == Some(yy)
    ensures ParseDdMmYy(s) == DateOfInts(Some(day), Some(month), Some(yy))
  {
  }

  /** The fields of a date in 2000-2099 give that date back. */
  lemma {:induction false} DateOfIntsCentury(d: Date)
    requires Valid(d) && 2000 <= d.year <= 2099
    ensures DateOfInts(Some(d.day), Some(d.month), Some(d.year % 100)) == Ok(d)
  {
    assert InTimestampRange(d);
  }

  /** `ddmmyy` of a date in 2000-2099 parses back to that date. */
  lemma {:induction false} ParseDdMmYyOfFormat(d: Date)
    requires Valid(d) && 2000 <= d.year <= 2099
    ensures ParseDdMmYy(FormatDdMmYy(d)) == Ok(d)
  {
    var yy := d.year % 100;
    SliceFields(Pad2(d.day), Pad2(d.month), Pad2(yy));
    PyIntPad2(d.day);
    PyIntPad2(d.month);
    PyIntPad2(yy);
    ParseDdMmYyFields(FormatDdMmYy(d), d.day, d.month, yy);
    DateOfIntsCentury(d);
  }

  /** The name `MA<ddmmyy>.csv` of a report dated in 2000-2099 parses back to that date. */
  lemma {:induction false} ParseMaFileNameOfFormat(d: Date)
    requires Valid(d) && 2000 <= d.year <= 2099
    ensures ParseMaFileName("MA" + FormatDdMmYy(d) + ".csv") == Ok(d)
  {
    MaFileNameMiddle(FormatDdMmYy(d));
    ParseDdMmYyOfFormat(d);
  }

  /** Outside 2000-2099 the two-digit year is windowed into the wrong century. */
  lemma {:induction false} MaFileNameWindow(d: Date)
    requires Valid(d) && d.year <= 9999
    ensures ParseMaFileName("MA" + FormatDdMmYy(d) + ".csv") == Ok(d) <==> 2000 <= d.year <= 2099
  {
    MaFileNameMiddle(FormatDdMmYy(d));
    if 2000 <= d.year <= 2099 {
      ParseDdMmYyOfFormat(d);
    } else {
      var yy := d.year % 100;
      SliceFields(Pad2(d.day), Pad2(d.month), Pad2(yy));
      PyIntPad2(d.day);
      PyIntPad2(d.month);
      PyIntPad2(yy);
      ParseDdMmYyFields(FormatDdMmYy(d), d.day, d.month, yy);
    }
  }

  lemma {:induction false} MaFileNameExample()
    ensures ParseMaFileName("MA010423.csv") == Ok(Date(2023, 4, 1))
  {
    var d := Date(2023, 4, 1);
    assert Pad2(1) == "01" && Pad2(4) == "04" && Pad2(2023) == "23";
    assert "MA" + FormatDdMmYy(d) + ".csv" == "MA010423.csv";
    ParseMaFileNameOfFormat(d);
  }

  /** `int()` reads ` 1` as 1: a blank may stand for the day's leading zero. */
  lemma {:induction false} MaFileNameBlankDay(d: Date)
    requires Valid(d) && 2000 <= d.year <= 2099 && d.day < 10
    ensures ParseMaFileName("MA " + [DigitChar(d.day)] + Pad2(d.month) + Pad2(d.year % 100) + ".csv") == Ok(d)
  {
    var yy := d.year % 100;
    var dd := " " + [DigitChar(d.day)];
    var t := dd + Pad2(d.month) + Pad2(yy);
    MaFileNameMiddle(t);
    assert "MA " + [DigitChar(d.day)] + Pad2(d.month) + Pad2(yy) + ".csv" == "MA" + t + ".csv";
    SliceFields(dd, Pad2(d.month), Pad2(yy));
    assert IsSpace(dd[0]) && dd[1..] == [DigitChar(d.day)];
    PyIntLeadingSpace(dd);
    PyIntDigit(DigitChar(d.day));
    DigitRoundTrip(d.day);
    PyIntPad2(d.month);
    PyIntPad2(yy);
    ParseDdMmYyFields(t, d.day, d.month, yy);
    DateOfIntsCentury(d);
  }

  /** The fields of a date in 1991-2000, the year given as `int()` of a negative number. */
  lemma {:induction false} DateOfIntsNegative(d: Date)
    requires Valid(d) && 1991 <= d.year <= 2000
    ensures DateOfInts(Some(d.day), Some(d.month), Some(d.year - 2000)) == Ok(d)
  {
    assert InTimestampRange(d);
  }

  /** The `ddmmyy` parse of a date in 1991-2000 whose `yy` is a minus sign and a digit. */
  lemma {:induction false} ParseDdMmYySignedYear(d: Date, yy: string)
    requires Valid(d) && 1991 <= d.year <= 2000
    requires |yy| == 2 && yy[0] == '-' && yy[1] == DigitChar(2000 - d.year)
    ensures ParseDdMmYy(Pad2(d.day) + Pad2(d.month) + yy) == Ok(d)
  {
    var k := 2000 - d.year;
    var t := Pad2(d.day) + Pad2(d.month) + yy;
    SliceFields(Pad2(d.day), Pad2(d.month), yy);
    PyIntPad2(d.day);
    PyIntPad2(d.month);
    PyIntNegativeDigit(yy);
    DigitRoundTrip(k);
    ParseDdMmYyFields(t, d.day, d.month, d.year - 2000);
    DateOfIntsNegative(d);
  }

  /** `int()` reads `-5` as -5: the year `2000 + int("-5")` is 1995. */
  lemma {:induction false} MaFileNameSignedYear(d: Date)
    requires Valid(d) && 1991 <= d.year <= 2000
    ensures ParseMaFileName("MA" + Pad2(d.day) + Pad2(d.month) + "-" + [DigitChar(2000 - d.year)] + ".csv") == Ok(d)
  {
    var yy := "-" + [DigitChar(2000 - d.year)];
    var t := Pad2(d.day) + Pad2(d.month) + yy;
    MaFileNameMiddle(t);
    assert "MA" + Pad2(d.day) + Pad2(d.month) + "-" + [DigitChar(2000 - d.year)] + ".csv" == "MA" + t + ".csv";
    ParseDdMmYySignedYear(d, yy);
  }
}
