/**
 * Proleptic Gregorian calendar arithmetic, as Python's `datetime.date` does it:
 * dates are (year, month, day) triples, compared lexicographically, stepped one
 * day at a time with `timedelta(days=1)`, and numbered by `toordinal()`
 * (0001-01-01 is day 1, a Monday).
 */
module Calendar {

  datatype Date = Date(year: int, month: int, day: int)

  predicate IsLeapYear(y: int) {
    y % 4 == 0 && (y % 100 != 0 || y % 400 == 0)
  }

  function DaysInMonth(y: int, m: int): int {
    if m == 2 then (if IsLeapYear(y) then 29 else 28)
    else if m == 4 || m == 6 || m == 9 || m == 11 then 30
    else 31
  }

  function YearLength(y: int): int {
    if IsLeapYear(y) then 366 else 365
  }

  /** A real calendar date from year 1 on (Python's MINYEAR). */
  predicate Valid(d: Date) {
    1 <= d.year && 1 <= d.month <= 12 && 1 <= d.day <= DaysInMonth(d.year, d.month)
  }

  const MinDate := Date(1, 1, 1)

  /** Python's `a < b` on dates: lexicographic on (year, month, day). */
  predicate Before(a: Date, b: Date) {
    a.year < b.year
    || (a.year == b.year && a.month < b.month)
    || (a.year == b.year && a.month == b.month && a.day < b.day)
  }

  predicate NotAfter(a: Date, b: Date) {
    a == b || Before(a, b)
  }

  /** Days in the years before `y`. */
  function DaysBeforeYear(y: int): int
    requires y >= 1
  {
    var n := y - 1;
    365 * n + n / 4 - n / 100 + n / 400
  }

  /** Days in the months of year `y` before month `m`. */
  function DaysBeforeMonth(y: int, m: int): int
    requires 1 <= m <= 12
  {
    var cumulative := [0, 31, 59, 90, 120, 151, 181, 212, 243, 273, 304, 334];
    cumulative[m - 1] + (if m > 2 && IsLeapYear(y) then 1 else 0)
  }

  /** Python's `date.toordinal()`. */
  function Ordinal(d: Date): (r: int)
    requires Valid(d)
    ensures DaysBeforeYear(d.year) < r <= DaysBeforeYear(d.year) + YearLength(d.year)
  {
    LastMonth(d.year);
    if d.month < 12 then
      MonthsMonotone(d.year, d.month, 12);
      DaysBeforeYear(d.year) + DaysBeforeMonth(d.year, d.month) + d.day
    else
      DaysBeforeYear(d.year) + DaysBeforeMonth(d.year, d.month) + d.day
  }

  /** Python's `date.weekday()`: Monday is 0 and Sunday is 6. */
  function Weekday(d: Date): (r: int)
    requires Valid(d)
    ensures 0 <= r < 7
  {
    (Ordinal(d) + 6) % 7
  }

  /** Two fixed points of the numbering: 0001-01-01 is day 1, and 2023-04-01 is day 738611, a Saturday. */
  lemma {:induction false} OrdinalAnchors()
    ensures Ordinal(MinDate) == 1 && Weekday(MinDate) == 0
    ensures Ordinal(Date(2023, 4, 1)) == 738611 && Weekday(Date(2023, 4, 1)) == 5
  {
    assert DaysBeforeYear(2023) == 738520;
  }

  lemma {:induction false} YearStep(y: int)
    requires y >= 1
    ensures DaysBeforeYear(y + 1) == DaysBeforeYear(y) + YearLength(y)
  {
    var n := y - 1;
    assert (n + 1) / 4 - n / 4 == (if y % 4 == 0 then 1 else 0);
    assert (n + 1) / 100 - n / 100 == (if y % 100 == 0 then 1 else 0);
    assert (n + 1) / 400 - n / 400 == (if y % 400 == 0 then 1 else 0);
  }

  lemma {:induction false} MonthStep(y: int, m: int)
    requires 1 <= m < 12
    ensures DaysBeforeMonth(y, m + 1) == DaysBeforeMonth(y, m) + DaysInMonth(y, m)
  {
  }

  lemma {:induction false} LastMonth(y: int)
    ensures DaysBeforeMonth(y, 12) + DaysInMonth(y, 12) == YearLength(y)
  {
  }

  lemma {:induction false} OrdinalPositive(d: Date)
    requires Valid(d)
    ensures Ordinal(d) >= 1
    ensures Ordinal(d) == 1 <==> d == MinDate
  {
    var n := d.year - 1;
    assert n / 4 - n / 100 >= 0;
    assert DaysBeforeYear(d.year) >= 365 * n;
  }

  /** The day after `d`: `d + timedelta(days=1)`. */
  function Next(d: Date): (r: Date)
    requires Valid(d)
    ensures Valid(r)
    ensures Ordinal(r) == Ordinal(d) + 1
    ensures Before(d, r)
  {
    if d.day < DaysInMonth(d.year, d.month) then
      Date(d.year, d.month, d.day + 1)
    else if d.month < 12 then
      MonthStep(d.year, d.month);
      Date(d.year, d.month + 1, 1)
    else
      YearStep(d.year);
      LastMonth(d.year);
      Date(d.year + 1, 1, 1)
  }

  /** The day before `d`: `d - timedelta(days=1)`; there is none before 0001-01-01. */
  function Prev(d: Date): (r: Date)
    requires Valid(d) && d != MinDate
    ensures Valid(r)
    ensures Ordinal(r) == Ordinal(d) - 1
    ensures Before(r, d)
  {
    if d.day > 1 then
      Date(d.year, d.month, d.day - 1)
    else if d.month > 1 then
      MonthStep(d.year, d.month - 1);
      Date(d.year, d.month - 1, DaysInMonth(d.year, d.month - 1))
    else
      YearStep(d.year - 1);
      LastMonth(d.year - 1);
      Date(d.year - 1, 12, 31)
  }

  lemma {:induction false} YearsMonotone(a: int, b: int)
    requires 1 <= a <= b
    ensures DaysBeforeYear(a) + 365 * (b - a) <= DaysBeforeYear(b)
    decreases b - a
  {
    if a < b {
      YearStep(a);
      YearsMonotone(a + 1, b);
    }
  }

  lemma {:induction false} MonthsMonotone(y: int, a: int, b: int)
    requires 1 <= a < b <= 12
    ensures DaysBeforeMonth(y, a) + DaysInMonth(y, a) <= DaysBeforeMonth(y, b)
  {
  }

  lemma {:induction false} EarlierYear(x: Date, y: Date)
    requires Valid(x) && Valid(y) && x.year < y.year
    ensures Ordinal(x) < Ordinal(y)
  {
    YearStep(x.year);
    YearsMonotone(x.year + 1, y.year);
  }

  lemma {:induction false} EarlierMonth(x: Date, y: Date)
    requires Valid(x) && Valid(y) && x.year == y.year && x.month < y.month
    ensures Ordinal(x) < Ordinal(y)
  {
    MonthsMonotone(x.year, x.month, y.month);
  }

  lemma {:induction false} BeforeOrdinal(a: Date, b: Date)
    requires Valid(a) && Valid(b) && Before(a, b)
    ensures Ordinal(a) < Ordinal(b)
  {
    if a.year < b.year {
      EarlierYear(a, b);
    } else if a.month < b.month {
      EarlierMonth(a, b);
    }
  }

  /** Lexicographic order on valid dates is the order of their ordinals. */
  lemma {:induction false} BeforeIsOrdinalOrder(a: Date, b: Date)
    requires Valid(a) && Valid(b)
    ensures Before(a, b) <==> Ordinal(a) < Ordinal(b)
    ensures a == b <==> Ordinal(a) == Ordinal(b)
  {
    if Before(a, b) {
      BeforeOrdinal(a, b);
    } else if Before(b, a) {
      BeforeOrdinal(b, a);
    } else {
      assert a == b;
    }
  }

  lemma {:induction false} NextPrev(d: Date)
    requires Valid(d) && d != MinDate
    ensures Next(Prev(d)) == d
  {
    BeforeIsOrdinalOrder(Next(Prev(d)), d);
  }

  lemma {:induction false} PrevNext(d: Date)
    requires Valid(d)
    ensures Next(d) != MinDate && Prev(Next(d)) == d
  {
    OrdinalPositive(d);
    OrdinalPositive(Next(d));
    BeforeIsOrdinalOrder(Prev(Next(d)), d);
  }

  /** Nothing lies strictly between a date and the next one. */
  lemma {:induction false} NoDateBetween(d: Date, x: Date)
    requires Valid(d) && Valid(x)
    ensures Before(d, x) <==> NotAfter(Next(d), x)
  {
    BeforeIsOrdinalOrder(d, x);
    BeforeIsOrdinalOrder(Next(d), x);
  }

  /** The dates after the day before `p` are `p` and the dates after it. */
  lemma {:induction false} AfterPrev(p: Date, x: Date)
    requires Valid(p) && p != MinDate && Valid(x)
    ensures Before(Prev(p), x) <==> NotAfter(p, x)
  {
    BeforeIsOrdinalOrder(Prev(p), x);
    BeforeIsOrdinalOrder(p, x);
  }

  /** Counting on by one day moves the remainder modulo 7 on by one. */
  lemma {:induction false} Mod7Step(o: int)
    ensures 0 <= o % 7 < 7
    ensures (o + 1) % 7 == (o % 7 + 1) % 7
  {
    var q, k := o / 7, o % 7;
    assert o == 7 * q + k;
    if k < 6 {
      assert o + 1 == 7 * q + (k + 1);
    } else {
      assert o + 1 == 7 * (q + 1);
    }
  }

  lemma {:induction false} WeekdayNext(d: Date)
    requires Valid(d)
    ensures 0 <= Weekday(d) < 7
    ensures Weekday(Next(d)) == (Weekday(d) + 1) % 7
  {
    var o := Ordinal(d) + 6;
    assert Ordinal(Next(d)) + 6 == o + 1;
    Mod7Step(o);
  }
}
