/**
 * Naive calendar arithmetic standing for the parts of JavaScript's Date that
 * the core uses. An instant is a count of milliseconds since 1970-01-01 00:00
 * local time; a day is a count of days since 1970-01-01, which was a Thursday.
 * Months are numbered 0..11 as Date.getMonth() numbers them; days of the month
 * start at 1.
 */
module Calendar {

  const MsPerDay: nat := 1000 * 60 * 60 * 24
  const EpochYear: int := 1970

  /** The calendar day of an instant: Math.floor(t / 86400000), or a Date after setHours(0, 0, 0, 0). */
  function DayOf(t: nat): nat {
    t / MsPerDay
  }

  /** Date.getDay(): 0 = Sunday .. 6 = Saturday. */
  function Weekday(day: int): (w: int)
    ensures 0 <= w < 7
  {
    (day + 4) % 7
  }

  lemma {:induction false} WeekdayAdvance(day: int, k: int)
    ensures Weekday(day + k) == (Weekday(day) + k) % 7
  {
    assert day + k + 4 == (day + 4) + k;
  }

  predicate IsLeapYear(y: int) {
    y % 4 == 0 && (y % 100 != 0 || y % 400 == 0)
  }

  function DaysInYear(y: int): nat {
    if IsLeapYear(y) then 366 else 365
  }

  /** The number of days of month `m` (0..11) in year `y`. */
  function DaysInMonth(y: int, m: int): (n: nat)
    requires 0 <= m < 12
    ensures 28 <= n <= 31
  {
    if m == 1 then (if IsLeapYear(y) then 29 else 28)
    else if m == 3 || m == 5 || m == 8 || m == 10 then 30
    else 31
  }

  /** Days of year `y` before the first of month `m` (0..12). */
  function DaysBeforeMonth(y: int, m: int): (n: nat)
    requires 0 <= m <= 12
    ensures m == 12 ==> n == DaysInYear(y)
  {
    var leap := if IsLeapYear(y) && m >= 2 then 1 else 0;
    [0, 31, 59, 90, 120, 151, 181, 212, 243, 273, 304, 334, 365][m] + leap
  }

  /** Each month adds its own length. */
  lemma DaysBeforeMonthStep(y: int, m: int)
    requires 0 < m <= 12
    ensures DaysBeforeMonth(y, m) == DaysBeforeMonth(y, m - 1) + DaysInMonth(y, m - 1)
  {
  }

  /** Days from 1970-01-01 to the first of January of year `y`. */
  function DaysBeforeYear(y: int): nat
    requires y >= EpochYear
    decreases y - EpochYear
  {
    if y == EpochYear then 0 else DaysBeforeYear(y - 1) + DaysInYear(y - 1)
  }

  lemma {:induction false} DaysBeforeYearGrows(y: int, z: int)
    requires EpochYear <= y < z
    ensures DaysBeforeYear(y) + DaysInYear(y) <= DaysBeforeYear(z)
    decreases z - y
  {
    if z > y + 1 {
      DaysBeforeYearGrows(y, z - 1);
    }
  }

  /** A calendar date: year, month 0..11, day of month. */
  datatype Civil = Civil(year: int, month: int, day: int)

  predicate ValidCivil(c: Civil) {
    && c.year >= EpochYear
    && 0 <= c.month < 12
    && 1 <= c.day <= DaysInMonth(c.year, c.month)
  }

  /** The day number of the first of month `m` of year `y`. */
  function FirstOfMonth(y: int, m: int): nat
    requires y >= EpochYear && 0 <= m < 12
  {
    DaysBeforeYear(y) + DaysBeforeMonth(y, m)
  }

  function ToDay(c: Civil): nat
    requires ValidCivil(c)
  {
    FirstOfMonth(c.year, c.month) + c.day - 1
  }

  /** The date `rem` days after the first of month `m` of year `y`. */
  function MonthFrom(rem: nat, y: int, m: int): (c: Civil)
    requires y >= EpochYear && 0 <= m < 12
    requires DaysBeforeMonth(y, m) + rem < DaysInYear(y)
    ensures ValidCivil(c) && c.year == y && m <= c.month
    ensures ToDay(c) == FirstOfMonth(y, m) + rem
    decreases 12 - m
  {
    if rem < DaysInMonth(y, m) then Civil(y, m, rem + 1)
    else MonthFrom(rem - DaysInMonth(y, m), y, m + 1)
  }

  /** The date `rem` days after the first of January of year `y`. */
  function YearFrom(rem: nat, y: int): (c: Civil)
    requires y >= EpochYear
    ensures ValidCivil(c) && c.year >= y
    ensures ToDay(c) == DaysBeforeYear(y) + rem
    decreases rem
  {
    if rem < DaysInYear(y) then MonthFrom(rem, y, 0)
    else YearFrom(rem - DaysInYear(y), y + 1)
  }

  /** The calendar date of a day number. */
  function FromDay(n: nat): (c: Civil)
    ensures ValidCivil(c) && ToDay(c) == n
  {
    YearFrom(n, EpochYear)
  }

  lemma DaysBeforeMonthMonotone(y: int, a: int, b: int)
    requires 0 <= a <= b <= 12
    ensures DaysBeforeMonth(y, a) <= DaysBeforeMonth(y, b)
  {
  }

  lemma {:induction false} MonthFromCivil(c: Civil, m: int)
    requires ValidCivil(c) && 0 <= m <= c.month
    ensures DaysBeforeMonth(c.year, m) + (ToDay(c) - FirstOfMonth(c.year, m)) < DaysInYear(c.year)
    ensures MonthFrom(ToDay(c) - FirstOfMonth(c.year, m), c.year, m) == c
    decreases c.month - m
  {
    var y := c.year;
    var rem := ToDay(c) - FirstOfMonth(y, m);
    DaysBeforeMonthStep(y, c.month + 1);
    DaysBeforeMonthMonotone(y, c.month + 1, 12);
    if m < c.month {
      DaysBeforeMonthStep(y, m + 1);
      DaysBeforeMonthMonotone(y, m + 1, c.month);
      assert rem >= DaysInMonth(y, m);
      assert rem - DaysInMonth(y, m) == ToDay(c) - FirstOfMonth(y, m + 1);
      MonthFromCivil(c, m + 1);
    }
  }

  lemma {:induction false} YearFromCivil(c: Civil, y: int, rem: int)
    requires ValidCivil(c) && EpochYear <= y <= c.year
    requires rem == ToDay(c) - DaysBeforeYear(y)
    ensures rem >= 0
    ensures YearFrom(rem, y) == c
    decreases c.year - y
  {
    if y < c.year {
      DaysBeforeYearGrows(y, c.year);
      assert DaysBeforeYear(y + 1) == DaysBeforeYear(y) + DaysInYear(y);
      assert ToDay(c) >= DaysBeforeYear(c.year);
      assert rem >= DaysInYear(y);
      YearFromCivil(c, y + 1, rem - DaysInYear(y));
      assert YearFrom(rem, y) == YearFrom(rem - DaysInYear(y), y + 1);
      assert YearFrom(rem, y) == c;
    } else {
      YearFromOwn(c);
      assert y == c.year;
      assert YearFrom(rem, y) == c;
    }
  }

  /** A date is found among the months of its own year. */
  lemma YearFromOwn(c: Civil)
    requires ValidCivil(c)
    ensures DaysBeforeYear(c.year) <= ToDay(c)
    ensures YearFrom(ToDay(c) - DaysBeforeYear(c.year), c.year) == c
  {
    var y := c.year;
    var rem := ToDay(c) - DaysBeforeYear(y);
    MonthFromCivil(c, 0);
    assert FirstOfMonth(y, 0) == DaysBeforeYear(y);
    assert rem < DaysInYear(y);
    assert YearFrom(rem, y) == MonthFrom(rem, y, 0);
  }

  /** Day numbers and valid calendar dates are in one-to-one correspondence. */
  lemma FromDayToDay(c: Civil)
    requires ValidCivil(c)
    ensures FromDay(ToDay(c)) == c
  {
    YearFromCivil(c, EpochYear, ToDay(c));
  }

  /**
   * ECMAScript's MakeDay: the day number of day `d` of month `m` of year `y`,
   * where a month outside 0..11 carries into the year and a day outside the
   * month carries into the neighbouring months, as `new Date(y, m, d)` does.
   */
  function MakeDay(y: int, m: int, d: int): int
    requires y + m / 12 >= EpochYear
  {
    FirstOfMonth(y + m / 12, m % 12) + d - 1
  }

  /** Date.prototype.setDate(k): day `k` of the date's own month, overflowing as MakeDay does. */
  function SetDate(n: nat, k: int): int {
    var c := FromDay(n);
    MakeDay(c.year, c.month, k)
  }

  /** Date.prototype.setMonth(m): month `m` of the date's year, keeping the day of the month. */
  function SetMonth(n: nat, m: int): nat
    requires FromDay(n).year + m / 12 >= EpochYear
  {
    var c := FromDay(n);
    MakeDay(c.year, m, c.day)
  }

  /** The month after month `m` of year `y`, with December carrying into January. */
  function NextMonth(y: int, m: int): (r: (int, int))
    requires 0 <= m < 12
    ensures 0 <= r.1 < 12 && r.0 >= y
  {
    if m == 11 then (y + 1, 0) else (y, m + 1)
  }

  lemma {:induction false} FirstOfNextMonth(y: int, m: int)
    requires y >= EpochYear && 0 <= m < 12
    ensures FirstOfMonth(NextMonth(y, m).0, NextMonth(y, m).1) == FirstOfMonth(y, m) + DaysInMonth(y, m)
  {
    if m == 11 {
      assert DaysBeforeYear(y + 1) == DaysBeforeYear(y) + DaysInYear(y);
    }
  }

  /** Moving the day of the month by k moves the date by k days. */
  lemma SetDateAdd(n: nat, k: int)
    ensures SetDate(n, FromDay(n).day + k) == n + k
  {
  }

  /** A day between the first and the last of a month is that month's date. */
  lemma FromDayInMonth(n: nat, y: int, m: int)
    requires y >= EpochYear && 0 <= m < 12
    requires FirstOfMonth(y, m) <= n < FirstOfMonth(y, m) + DaysInMonth(y, m)
    ensures FromDay(n) == Civil(y, m, n - FirstOfMonth(y, m) + 1)
  {
    FromDayToDay(Civil(y, m, n - FirstOfMonth(y, m) + 1));
  }

  /** setMonth(getMonth() + 1) keeps the day of the month, counted from the first of the next month. */
  lemma SetMonthNext(n: nat)
    ensures var c := FromDay(n);
      var (y, m) := NextMonth(c.year, c.month);
      SetMonth(n, c.month + 1) == FirstOfMonth(y, m) + c.day - 1
  {
  }

  /** setDate(k) with k within the month gives day k of the same month. */
  lemma SetDateInMonth(n: nat, k: int)
    requires 1 <= k <= DaysInMonth(FromDay(n).year, FromDay(n).month)
    ensures FromDay(SetDate(n, k)) == Civil(FromDay(n).year, FromDay(n).month, k)
  {
    var c := FromDay(n);
    assert c.month / 12 == 0 && c.month % 12 == c.month;
    assert SetDate(n, k) == ToDay(Civil(c.year, c.month, k));
    FromDayToDay(Civil(c.year, c.month, k));
  }
}
