/** Calendar dates, the day numbers behind a UTC Date, and YYYY-MM-DD keys compared as strings. */
module Calendar {
  import opened Domain

  datatype Date = Date(year: int, month: int, day: int)

  predicate Leap(year: int) {
    year % 4 == 0 && (year % 100 != 0 || year % 400 == 0)
  }

  function DaysInMonth(year: int, month: int): int {
    if month == 2 then (if Leap(year) then 29 else 28)
    else if month == 4 || month == 6 || month == 9 || month == 11 then 30
    else 31
  }

  predicate ValidDate(d: Date) {
    0 <= d.year <= 9999 && 1 <= d.month <= 12 && 1 <= d.day <= DaysInMonth(d.year, d.month)
  }

  /** Days from 1 January of year 0 to 1 January of this year. */
  function YearStart(year: int): int {
    365 * year + (year + 3) / 4 - (year + 99) / 100 + (year + 399) / 400
  }

  function MonthStart(year: int, month: int): int
    requires 1 <= month <= 13
  {
    if month == 1 then 0 else MonthStart(year, month - 1) + DaysInMonth(year, month - 1)
  }

  /** The day a UTC Date stands for. A day past the month's end runs over into the next month, as Date does. */
  function DayNumber(d: Date): int
    requires 1 <= d.month <= 12
  {
    YearStart(d.year) + MonthStart(d.year, d.month) + d.day - 1
  }

  lemma YearLength(year: int)
    ensures YearStart(year + 1) == YearStart(year) + if Leap(year) then 366 else 365
  {
    assert (year + 4) / 4 == (year + 3) / 4 + if year % 4 == 0 then 1 else 0;
    assert (year + 100) / 100 == (year + 99) / 100 + if year % 100 == 0 then 1 else 0;
    assert (year + 400) / 400 == (year + 399) / 400 + if year % 400 == 0 then 1 else 0;
  }

  lemma MonthStarts(year: int)
    ensures MonthStart(year, 13) == if Leap(year) then 366 else 365
    ensures MonthStart(year, 2) == 31
    ensures MonthStart(year, 3) == 59 + if Leap(year) then 1 else 0
  {
    var m2 := MonthStart(year, 2);
    var m3 := MonthStart(year, 3);
    var m4 := MonthStart(year, 4);
    var m5 := MonthStart(year, 5);
    var m6 := MonthStart(year, 6);
    var m7 := MonthStart(year, 7);
    var m8 := MonthStart(year, 8);
    var m9 := MonthStart(year, 9);
    var m10 := MonthStart(year, 10);
    var m11 := MonthStart(year, 11);
    var m12 := MonthStart(year, 12);
    assert m4 == m3 + 31 && m5 == m4 + 30 && m6 == m5 + 31 && m7 == m6 + 30;
    assert m8 == m7 + 31 && m9 == m8 + 31 && m10 == m9 + 30 && m11 == m10 + 31 && m12 == m11 + 30;
    assert m2 == MonthStart(year, 1) + 31 && m3 == m2 + DaysInMonth(year, 2) && MonthStart(year, 13) == m12 + 31;
  }

  lemma {:induction false} YearsAscend(a: int, b: int)
    requires a < b
    ensures YearStart(a + 1) <= YearStart(b)
    decreases b - a
  {
    if a + 1 < b {
      YearsAscend(a, b - 1);
      YearLength(b - 1);
    }
  }

  lemma {:induction false} MonthsAscend(year: int, a: int, b: int)
    requires 1 <= a < b <= 13
    ensures MonthStart(year, a + 1) <= MonthStart(year, b)
    decreases b - a
  {
    if a + 1 < b {
      MonthsAscend(year, a, b - 1);
    }
  }

  predicate Earlier(a: Date, b: Date) {
    a.year < b.year || (a.year == b.year && (a.month < b.month || (a.month == b.month && a.day < b.day)))
  }

  lemma DayInYear(d: Date)
    requires ValidDate(d)
    ensures YearStart(d.year) <= DayNumber(d) < YearStart(d.year + 1)
    ensures MonthStart(d.year, d.month) <= DayNumber(d) - YearStart(d.year) < MonthStart(d.year, d.month + 1)
  {
    YearLength(d.year);
    MonthStarts(d.year);
    if d.month < 12 { MonthsAscend(d.year, d.month, 13); }
    if d.month > 1 { MonthsAscend(d.year, 1, d.month); }
  }

  /** Calendar order is the order of day numbers. */
  lemma EarlierIsSmaller(a: Date, b: Date)
    requires ValidDate(a) && ValidDate(b)
    ensures Earlier(a, b) <==> DayNumber(a) < DayNumber(b)
    ensures a == b <==> DayNumber(a) == DayNumber(b)
  {
    if Earlier(a, b) { EarlierMeansSmaller(a, b); }
    if Earlier(b, a) { EarlierMeansSmaller(b, a); }
  }

  lemma EarlierMeansSmaller(a: Date, b: Date)
    requires ValidDate(a) && ValidDate(b) && Earlier(a, b)
    ensures DayNumber(a) < DayNumber(b)
  {
    DayInYear(a);
    DayInYear(b);
    if a.year < b.year {
      YearsAscend(a.year, b.year);
    } else if a.month < b.month {
      MonthsAscend(a.year, a.month, b.month);
    }
  }

  // ---- Day numbers back to dates ----

  const LAST_YEAR := 9999
  const LAST_DAY := 3_652_424

  /** The last year, of the given one and those after it, that starts on or before day n. */
  function YearFrom(n: int, year: int): int
    decreases LAST_YEAR - year
  {
    if year >= LAST_YEAR || n < YearStart(year + 1) then year else YearFrom(n, year + 1)
  }

  function MonthFrom(n: int, year: int, month: int): int
    requires 1 <= month <= 12
    ensures month <= MonthFrom(n, year, month) <= 12
    decreases 12 - month
  {
    if month == 12 || n < MonthStart(year, month + 1) then month else MonthFrom(n, year, month + 1)
  }

  /** The date of a day between 0000-01-01 and 9999-12-31. */
  function DateOf(n: int): Date {
    var year := YearFrom(n, 0);
    var month := MonthFrom(n - YearStart(year), year, 1);
    Date(year, month, n - YearStart(year) - MonthStart(year, month) + 1)
  }

  lemma {:induction false} YearFromIsRight(n: int, year: int)
    requires 0 <= year <= LAST_YEAR && YearStart(year) <= n <= LAST_DAY
    ensures year <= YearFrom(n, year) <= LAST_YEAR
    ensures YearStart(YearFrom(n, year)) <= n < YearStart(YearFrom(n, year) + 1)
    decreases LAST_YEAR - year
  {
    if year < LAST_YEAR && YearStart(year + 1) <= n {
      YearFromIsRight(n, year + 1);
    }
  }

  lemma {:induction false} MonthFromIsRight(n: int, year: int, month: int)
    requires 1 <= month <= 12 && MonthStart(year, month) <= n < MonthStart(year, 13)
    ensures MonthStart(year, MonthFrom(n, year, month)) <= n < MonthStart(year, MonthFrom(n, year, month) + 1)
    decreases 12 - month
  {
    if month < 12 && MonthStart(year, month + 1) <= n {
      MonthFromIsRight(n, year, month + 1);
    }
  }

  lemma DateOfIsRight(n: int)
    requires 0 <= n <= LAST_DAY
    ensures ValidDate(DateOf(n)) && DayNumber(DateOf(n)) == n
  {
    hide YearFrom, MonthFrom;
    YearFromIsRight(n, 0);
    var year := YearFrom(n, 0);
    YearLength(year);
    MonthStarts(year);
    MonthFromIsRight(n - YearStart(year), year, 1);
  }

  lemma {:induction false} YearsInOrder(a: int, b: int)
    requires a <= b
    ensures YearStart(a) <= YearStart(b)
    decreases b - a
  {
    if a < b {
      YearLength(a);
      hide YearStart;
      YearsInOrder(a + 1, b);
    }
  }

  lemma DayNumberInRange(d: Date)
    requires ValidDate(d)
    ensures 0 <= DayNumber(d) <= LAST_DAY
  {
    assert YearStart(0) == 0 && YearStart(LAST_YEAR + 1) == LAST_DAY + 1;
    hide DayNumber, MonthStart, YearStart;
    DayInYear(d);
    YearsInOrder(0, d.year);
    YearsInOrder(d.year + 1, LAST_YEAR + 1);
  }

  /** Turning a date into its day and back changes nothing. */
  lemma DateRoundTrip(d: Date)
    requires ValidDate(d)
    ensures 0 <= DayNumber(d) <= LAST_DAY && DateOf(DayNumber(d)) == d
  {
    DayNumberInRange(d);
    DateOfIsRight(DayNumber(d));
    EarlierIsSmaller(DateOf(DayNumber(d)), d);
  }
}
