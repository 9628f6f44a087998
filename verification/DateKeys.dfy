/** Dates as YYYY-MM-DD keys: compared as text, shifted by days. */
module DateKeys {
  import opened Domain
  import opened Texts
  import opened Calendar

  // ---- Writing and reading a key ----

  const DASH: Unit := 45

  /** n in two decimal digits. */
  function Two(n: int): Text {
    if 0 <= n < 100 then [48 + n / 10, 48 + n % 10] else [48, 48]
  }

  /** The first ten characters of a Date's ISO form, for a year of four digits. */
  function KeyOf(d: Date): Text {
    Two(d.year / 100) + (Two(d.year % 100) + ([DASH] + (Two(d.month) + ([DASH] + Two(d.day)))))
  }

  /** The pattern a date must match on the way in: four, two and two digits. */
  predicate KeyPattern(key: Text) {
    && |key| == 10 && key[4] == DASH && key[7] == DASH
    && IsDigit(key[0]) && IsDigit(key[1]) && IsDigit(key[2]) && IsDigit(key[3])
    && IsDigit(key[5]) && IsDigit(key[6]) && IsDigit(key[8]) && IsDigit(key[9])
  }

  function ReadTwo(a: Unit, b: Unit): int {
    10 * (a as int - 48) + (b as int - 48)
  }

  function PartsOf(key: Text): Date
    requires |key| == 10
  {
    Date(100 * ReadTwo(key[0], key[1]) + ReadTwo(key[2], key[3]), ReadTwo(key[5], key[6]), ReadTwo(key[8], key[9]))
  }

  /** The day an ISO date stands for, or None where Date gives NaN. */
  function ParseKey(key: Text): Option<int> {
    if KeyPattern(key) && 1 <= PartsOf(key).month <= 12 && 1 <= PartsOf(key).day <= 31
    then Some(DayNumber(PartsOf(key))) else None
  }

  /** A key reads back as the date it was written for. */
  lemma KeyRoundTrip(d: Date)
    requires ValidDate(d)
    ensures KeyPattern(KeyOf(d)) && PartsOf(KeyOf(d)) == d && ParseKey(KeyOf(d)) == Some(DayNumber(d))
  {
    var key := KeyOf(d);
    assert ReadTwo(key[0], key[1]) == d.year / 100 && ReadTwo(key[2], key[3]) == d.year % 100;
    assert ReadTwo(key[5], key[6]) == d.month && ReadTwo(key[8], key[9]) == d.day;
  }

  // ---- Comparing keys as text ----

  lemma OneUnit(a: Unit, b: Unit, x: Text, y: Text)
    ensures TextBefore([a] + x, [b] + y) <==> a < b || (a == b && TextBefore(x, y))
  {
    assert ([a] + x)[1..] == x && ([b] + y)[1..] == y;
  }

  /** Text order puts two-digit numerals in numeric order, and looks further only when they are equal. */
  lemma TwoOrder(n: int, m: int, x: Text, y: Text)
    requires 0 <= n < 100 && 0 <= m < 100
    ensures TextBefore(Two(n) + x, Two(m) + y) <==> n < m || (n == m && TextBefore(x, y))
  {
    OneUnit(48 + n % 10, 48 + m % 10, x, y);
    OneUnit(48 + n / 10, 48 + m / 10, [48 + n % 10] + x, [48 + m % 10] + y);
    assert Two(n) + x == [48 + n / 10] + ([48 + n % 10] + x);
    assert Two(m) + y == [48 + m / 10] + ([48 + m % 10] + y);
  }

  lemma KeyOrderIsDateOrder(a: Date, b: Date)
    requires ValidDate(a) && ValidDate(b)
    ensures TextBefore(KeyOf(a), KeyOf(b)) <==> Earlier(a, b)
  {
    var d1, d2 := Two(a.day), Two(b.day);
    var m1, m2 := Two(a.month) + ([DASH] + d1), Two(b.month) + ([DASH] + d2);
    var y1, y2 := Two(a.year % 100) + ([DASH] + m1), Two(b.year % 100) + ([DASH] + m2);
    assert d1 == d1 + [] && d2 == d2 + [];
    TwoOrder(a.day, b.day, [], []);
    OneUnit(DASH, DASH, d1, d2);
    TwoOrder(a.month, b.month, [DASH] + d1, [DASH] + d2);
    OneUnit(DASH, DASH, m1, m2);
    TwoOrder(a.year % 100, b.year % 100, [DASH] + m1, [DASH] + m2);
    TwoOrder(a.year / 100, b.year / 100, y1, y2);
  }

  /** On valid dates, comparing keys as strings is comparing the days they stand for. */
  lemma KeyOrderIsDayOrder(a: Date, b: Date)
    requires ValidDate(a) && ValidDate(b)
    ensures TextBefore(KeyOf(a), KeyOf(b)) <==> DayNumber(a) < DayNumber(b)
    ensures KeyOf(a) == KeyOf(b) <==> a == b
  {
    KeyOrderIsDateOrder(a, b);
    EarlierIsSmaller(a, b);
    KeyRoundTrip(a);
    KeyRoundTrip(b);
  }

  // ---- Shifting a key by days ----

  /** The key of a day; None when its year does not have four digits. */
  function KeyOfDay(n: int): Option<Text> {
    if 0 <= n <= LAST_DAY then Some(KeyOf(DateOf(n))) else None
  }

  lemma KeyOfDayParses(n: int)
    requires KeyOfDay(n).Some?
    ensures ParseKey(KeyOfDay(n).value) == Some(n)
  {
    DateOfIsRight(n);
    KeyRoundTrip(DateOf(n));
  }

  /** Setting a UTC Date's day of month forward or back, and taking its key. */
  function AddDays(key: Text, days: int): Option<Text> {
    match ParseKey(key)
    case None => None
    case Some(n) => KeyOfDay(n + days)
  }

  function PreviousDateKey(key: Text): Option<Text> {
    AddDays(key, -1)
  }

  lemma AddDaysReaches(key: Text, from: int, days: int, n: int)
    requires ParseKey(key) == Some(from) && n == from + days
    ensures AddDays(key, days) == KeyOfDay(n)
  {
    hide KeyOfDay, ParseKey;
  }

  /** Shifting twice is shifting by the sum, across months, leap days and centuries. */
  lemma AddDaysComposes(key: Text, a: int, b: int)
    ensures AddDays(key, a).Some? ==> AddDays(AddDays(key, a).value, b) == AddDays(key, a + b)
  {
    if AddDays(key, a).Some? {
      var start := ParseKey(key).value;
      var m, n := start + a, start + a + b;
      AddDaysReaches(key, start, a, m);
      KeyOfDayParses(m);
      AddDaysReaches(KeyOfDay(m).value, m, b, n);
      AddDaysReaches(key, start, a + b, n);
    }
  }

  lemma NotTheLastDay(d: Date)
    requires ValidDate(d) && d != Date(9999, 12, 31)
    ensures 0 <= DayNumber(d) < LAST_DAY && AddDays(KeyOf(d), 1).Some?
  {
    var last := Date(9999, 12, 31);
    DayNumberInRange(d);
    DayNumberInRange(last);
    EarlierIsSmaller(d, last);
    KeyRoundTrip(d);
    AddDaysReaches(KeyOf(d), DayNumber(d), 1, DayNumber(d) + 1);
  }

  /** Yesterday's key of tomorrow is today's. */
  lemma PreviousUndoesNext(d: Date)
    requires ValidDate(d) && d != Date(9999, 12, 31)
    ensures AddDays(KeyOf(d), 1).Some? && PreviousDateKey(AddDays(KeyOf(d), 1).value) == Some(KeyOf(d))
  {
    NotTheLastDay(d);
    AddDaysComposes(KeyOf(d), 1, -1);
    KeyRoundTrip(d);
    DateRoundTrip(d);
    AddDaysReaches(KeyOf(d), DayNumber(d), 0, DayNumber(d));
  }

  /** A shifted key is later as text exactly when the shift is forward. */
  lemma AddDaysMoves(d: Date, days: int, n: int)
    requires ValidDate(d) && n == DayNumber(d) + days
    ensures AddDays(KeyOf(d), days).Some? <==> 0 <= n <= LAST_DAY
    ensures AddDays(KeyOf(d), days).Some? ==>
      ParseKey(AddDays(KeyOf(d), days).value) == Some(n) && (TextBefore(KeyOf(d), AddDays(KeyOf(d), days).value) <==> 0 < days)
  {
    hide AddDays, ParseKey, KeyOf, TextBefore, DateOf, DayNumber, KeyPattern, PartsOf;
    KeyRoundTrip(d);
    AddDaysReaches(KeyOf(d), DayNumber(d), days, n);
    if KeyOfDay(n).Some? {
      KeyOfDayParses(n);
      DateOfIsRight(n);
      KeyOrderIsDayOrder(d, DateOf(n));
    }
  }
}
