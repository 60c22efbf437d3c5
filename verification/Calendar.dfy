/** A proleptic Gregorian calendar at a fixed offset from UTC, on integer days and milliseconds. */
module Calendar {

  const DAY: int := 86_400_000

  datatype Date = Date(year: int, month: int, day: int)

  predicate Leap(y: int) {
    y % 4 == 0 && (y % 100 != 0 || y % 400 == 0)
  }

  function DaysInMonth(y: int, m: int): (n: int)
    ensures 28 <= n <= 31
  {
    if m == 2 then (if Leap(y) then 29 else 28)
    else if m == 4 || m == 6 || m == 9 || m == 11 then 30
    else 31
  }

  predicate Valid(d: Date) {
    1 <= d.month <= 12 && 1 <= d.day <= DaysInMonth(d.year, d.month)
  }

  /** Days from 1 January 1970 to 1 January of `y`. */
  function DaysBeforeYear(y: int): int {
    365 * (y - 1970) + (y - 1) / 4 - (y - 1) / 100 + (y - 1) / 400 - 477
  }

  function DaysBeforeMonth(y: int, m: int): int
    requires 1 <= m
    decreases m
  {
    if m == 1 then 0 else DaysBeforeMonth(y, m - 1) + DaysInMonth(y, m - 1)
  }

  function DayNumber(d: Date): int
    requires Valid(d)
  {
    DaysBeforeYear(d.year) + DaysBeforeMonth(d.year, d.month) + d.day - 1
  }

  function Weekday(day: int): (w: int)
    ensures 0 <= w < 7
  {
    (day + 4) % 7
  }

  /** Weeks begin on Monday; day 0 is a Thursday. */
  function Week(day: int): int {
    (day + 3) / 7
  }

  predicate Before(a: Date, b: Date) {
    a.year < b.year || (a.year == b.year && (a.month < b.month || (a.month == b.month && a.day < b.day)))
  }

  lemma YearLength(y: int)
    ensures DaysBeforeYear(y + 1) == DaysBeforeYear(y) + DaysBeforeMonth(y, 13)
  {
    assert DaysBeforeMonth(y, 13) == if Leap(y) then 366 else 365 by {
      assert DaysBeforeMonth(y, 5) == DaysInMonth(y, 2) + 92;
      assert DaysBeforeMonth(y, 9) == DaysInMonth(y, 2) + 215;
    }
    assert y / 4 == (y - 1) / 4 + (if y % 4 == 0 then 1 else 0);
    assert y / 100 == (y - 1) / 100 + (if y % 100 == 0 then 1 else 0);
    assert y / 400 == (y - 1) / 400 + (if y % 400 == 0 then 1 else 0);
    assert y % 400 == 0 ==> y % 100 == 0;
    assert y % 100 == 0 ==> y % 4 == 0;
  }

  lemma {:induction false} MonthsGrow(y: int, m: int, n: int)
    requires 1 <= m < n
    ensures DaysBeforeMonth(y, m) + DaysInMonth(y, m) <= DaysBeforeMonth(y, n)
    decreases n
  {
    if m < n - 1 {
      MonthsGrow(y, m, n - 1);
    }
  }

  lemma {:induction false} YearsGrow(y: int, z: int)
    requires y < z
    ensures DaysBeforeYear(y) + DaysBeforeMonth(y, 13) <= DaysBeforeYear(z)
    decreases z - y
  {
    hide DaysBeforeYear, DaysBeforeMonth;
    YearLength(y);
    if y + 1 < z {
      YearsGrow(y + 1, z);
      MonthsFromZero(y + 1, 13);
    }
  }

  lemma {:induction false} MonthsFromZero(y: int, m: int)
    requires 1 <= m
    ensures 0 <= DaysBeforeMonth(y, m)
    decreases m
  {
    if m > 1 {
      MonthsFromZero(y, m - 1);
    }
  }

  /** Day numbers order dates as the calendar does, so a day number names one date. */
  lemma DayNumberOrders(a: Date, b: Date)
    requires Valid(a) && Valid(b)
    ensures DayNumber(a) < DayNumber(b) <==> Before(a, b)
    ensures DayNumber(a) == DayNumber(b) <==> a == b
  {
    if Before(a, b) {
      BeforeIsLess(a, b);
    } else if Before(b, a) {
      BeforeIsLess(b, a);
    }
  }

  lemma BeforeIsLess(a: Date, b: Date)
    requires Valid(a) && Valid(b) && Before(a, b)
    ensures DayNumber(a) < DayNumber(b)
  {
    hide DaysBeforeYear, DaysBeforeMonth;
    MonthsFromZero(b.year, b.month);
    if a.year < b.year {
      MonthsGrow(a.year, a.month, 13);
      YearsGrow(a.year, b.year);
    } else if a.month < b.month {
      MonthsGrow(a.year, a.month, b.month);
    }
  }

  // ---- Anchors -----------------------------------------------------------------------

  /** 1 January 1970 is day 0, and a Thursday (Sunday is 0); its week began three days before. */
  lemma Epoch()
    ensures DayNumber(Date(1970, 1, 1)) == 0 && Weekday(0) == 4
    ensures Week(-3) == Week(0) == Week(3) && Week(-4) == Week(0) - 1 && Week(4) == Week(0) + 1
  {
  }

  function NextDay(d: Date): Date {
    if d.day < DaysInMonth(d.year, d.month) then Date(d.year, d.month, d.day + 1)
    else if d.month < 12 then Date(d.year, d.month + 1, 1)
    else Date(d.year + 1, 1, 1)
  }

  /** The day after a date has the next number, over the ends of months and years. */
  lemma NextDayNumber(d: Date)
    requires Valid(d)
    ensures Valid(NextDay(d)) && DayNumber(NextDay(d)) == DayNumber(d) + 1
  {
    hide DaysBeforeYear;
    YearLength(d.year);
    assert DaysBeforeMonth(d.year, 13) == DaysBeforeMonth(d.year, 12) + DaysInMonth(d.year, 12);
  }

  /** The next day has the next weekday; a week ends where a Monday begins, and nowhere else. */
  lemma NextWeekday(day: int)
    ensures Weekday(day + 1) == (Weekday(day) + 1) % 7
    ensures Week(day) == Week(day - 1) + (if Weekday(day) == 1 then 1 else 0)
  {
  }

  /** The months alternate between 31 and 30 days, anew from August on, but for February. */
  lemma MonthLengths(y: int, m: int)
    requires 1 <= m <= 12 && m != 2
    ensures DaysInMonth(y, m) == 30 + (m + m / 8) % 2
  {
  }

  /** February has 28 days and the one by which its year is longer than 365; 400 years are 146097 days, whole weeks. */
  lemma LeapDays(y: int)
    ensures DaysInMonth(y, 2) == 28 + (DaysBeforeYear(y + 1) - DaysBeforeYear(y) - 365)
    ensures DaysBeforeYear(y + 400) == DaysBeforeYear(y) + 146097 && 146097 % 7 == 0
  {
    FourCenturies(y);
    hide DaysBeforeYear;
    YearLength(y);
    assert DaysBeforeMonth(y, 5) == DaysInMonth(y, 2) + 92;
    assert DaysBeforeMonth(y, 9) == DaysInMonth(y, 2) + 215;
  }

  lemma FourCenturies(y: int)
    ensures DaysBeforeYear(y + 400) == DaysBeforeYear(y) + 146097
  {
    assert (y + 399) / 4 == (y - 1) / 4 + 100;
    assert (y + 399) / 100 == (y - 1) / 100 + 4;
    assert (y + 399) / 400 == (y - 1) / 400 + 1;
  }

  /** The latest day up to `today` that is a `w`. */
  function BackTo(today: int, w: int): (day: int)
    requires 0 <= w < 7
    ensures Weekday(day) == w && today - 7 < day <= today && (day == today <==> Weekday(today) == w)
  {
    today - (Weekday(today) - w) % 7
  }

  lemma WeekBefore(day: int)
    ensures Weekday(day - 7) == Weekday(day) && Week(day - 7) == Week(day) - 1
  {
  }

  lemma SameWeekday(a: int, b: int)
    requires Weekday(a) == Weekday(b) && b - 14 < a <= b
    ensures a == b || a == b - 7
  {
  }
}
