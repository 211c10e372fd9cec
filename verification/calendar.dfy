/** The calendar arithmetic behind JavaScript's `Date` in local time: the
    proleptic Gregorian calendar of ECMA-262 (section 21.4.1.1, "Time Values
    and Time Range"), with days counted from 1970-01-01. Time of day and the
    time-zone offset are not modelled: a date is the number of its local
    calendar day. */
module Calendar {

  /** A civil date: astronomical year (year 0 exists), month 1..12, day of
      month from 1. */
  datatype Civil = Civil(year: int, month: int, day: int)

  predicate IsLeapYear(y: int) {
    y % 4 == 0 && (y % 100 != 0 || y % 400 == 0)
  }

  function YearLength(y: int): int {
    if IsLeapYear(y) then 366 else 365
  }

  function DaysInMonth(y: int, m: int): (n: int)
    requires 1 <= m <= 12
    ensures 28 <= n <= 31
  {
    if m == 2 then (if IsLeapYear(y) then 29 else 28)
    else if m == 4 || m == 6 || m == 9 || m == 11 then 30
    else 31
  }

  predicate ValidCivil(c: Civil) {
    1 <= c.month <= 12 && 1 <= c.day <= DaysInMonth(c.year, c.month)
  }

  /** The calendar day after `c`, rolling over month and year ends. */
  function NextDay(c: Civil): (r: Civil)
    requires ValidCivil(c)
    ensures ValidCivil(r)
  {
    if c.day < DaysInMonth(c.year, c.month) then c.(day := c.day + 1)
    else if c.month < 12 then Civil(c.year, c.month + 1, 1)
    else Civil(c.year + 1, 1, 1)
  }

  /** The calendar day before `c`; `NextDay` undoes it. */
  function PrevDay(c: Civil): (r: Civil)
    requires ValidCivil(c)
    ensures ValidCivil(r) && NextDay(r) == c
  {
    if c.day > 1 then c.(day := c.day - 1)
    else if c.month > 1 then Civil(c.year, c.month - 1, DaysInMonth(c.year, c.month - 1))
    else Civil(c.year - 1, 12, 31)
  }

  const Epoch := Civil(1970, 1, 1)

  /** The civil date of day number `n`, counting whole days from 1970-01-01
      forwards and backwards. Every day number names a valid date. */
  function CivilOf(n: int): (c: Civil)
    ensures ValidCivil(c)
    decreases if n >= 0 then n else -n
  {
    if n == 0 then Epoch
    else if n > 0 then NextDay(CivilOf(n - 1))
    else PrevDay(CivilOf(n + 1))
  }

  /** The number of leap years among 1..y (for y >= 0), as a closed form. */
  function LeapsThrough(y: int): int {
    y / 4 - y / 100 + y / 400
  }

  function DaysBeforeYear(y: int): int {
    365 * (y - 1970) + LeapsThrough(y - 1) - LeapsThrough(1969)
  }

  function DaysBeforeMonth(y: int, m: int): int
    requires 1 <= m <= 12
  {
    var common :=
      if m == 1 then 0 else if m == 2 then 31 else if m == 3 then 59
      else if m == 4 then 90 else if m == 5 then 120 else if m == 6 then 151
      else if m == 7 then 181 else if m == 8 then 212 else if m == 9 then 243
      else if m == 10 then 273 else if m == 11 then 304 else 334;
    common + (if m > 2 && IsLeapYear(y) then 1 else 0)
  }

  /** The day number of a civil date, by the closed form of ECMA-262's
      `MakeDay`: whole years, then whole months, then the day of month. */
  function DaysFromCivil(c: Civil): int
    requires 1 <= c.month <= 12
  {
    DaysBeforeYear(c.year) + DaysBeforeMonth(c.year, c.month) + c.day - 1
  }

  /** Moving the closed form on by one year adds one leap day exactly when
      the year just passed was a leap year. */
  lemma LeapStep(y: int)
    ensures LeapsThrough(y) - LeapsThrough(y - 1) == if IsLeapYear(y) then 1 else 0
  {
    QuotientStep(y, 4);
    QuotientStep(y, 100);
    QuotientStep(y, 400);
    assert y % 400 == 0 ==> y % 100 == 0 by {
      if y % 400 == 0 { assert y == 400 * (y / 400) == 100 * (4 * (y / 400)); }
    }
    assert y % 100 == 0 ==> y % 4 == 0 by {
      if y % 100 == 0 { assert y == 100 * (y / 100) == 4 * (25 * (y / 100)); }
    }
  }

  /** Counting the multiples of `d` up to `y` rather than `y - 1` adds one
      exactly when `y` itself is a multiple. */
  lemma QuotientStep(y: int, d: int)
    requires d == 4 || d == 100 || d == 400
    ensures y / d - (y - 1) / d == if y % d == 0 then 1 else 0
  {
    var q, r := y / d, y % d;
    assert y == d * q + r && 0 <= r < d;
    if r == 0 {
      assert y - 1 == d * (q - 1) + (d - 1);
    } else {
      assert y - 1 == d * q + (r - 1);
    }
  }

  lemma YearStep(y: int)
    ensures DaysBeforeYear(y + 1) == DaysBeforeYear(y) + YearLength(y)
  {
    LeapStep(y);
  }

  /** Each step of `NextDay` is one day on the closed-form count. */
  lemma NextDayCount(c: Civil)
    requires ValidCivil(c)
    ensures DaysFromCivil(NextDay(c)) == DaysFromCivil(c) + 1
  {
    if c.day < DaysInMonth(c.year, c.month) {
      assert NextDay(c) == c.(day := c.day + 1);
    } else if c.month < 12 {
      assert NextDay(c) == Civil(c.year, c.month + 1, 1);
      MonthStep(c.year, c.month);
    } else {
      assert NextDay(c) == Civil(c.year + 1, 1, 1);
      YearStep(c.year);
    }
  }

  /** The day-number count and the civil-date count agree: the closed form
      reads back the number `CivilOf` stepped to. */
  lemma DaysFromCivilOf(n: int)
    ensures DaysFromCivil(CivilOf(n)) == n
  {
    if n >= 0 {
      CountForwards(n);
    } else {
      CountBackwards(n);
    }
  }

  lemma {:induction false} CountForwards(n: nat)
    ensures DaysFromCivil(CivilOf(n)) == n
  {
    if n > 0 {
      var c := CivilOf(n - 1);
      CountForwards(n - 1);
      NextDayCount(c);
      assert CivilOf(n) == NextDay(c);
    }
  }

  lemma {:induction false} CountBackwards(n: int)
    requires n <= 0
    ensures DaysFromCivil(CivilOf(n)) == n
    decreases -n
  {
    if n < 0 {
      var d := CivilOf(n + 1);
      var c := PrevDay(d);
      assert CivilOf(n) == c;
      CountBackwards(n + 1);
      NextDayCount(c);
      assert NextDay(c) == d;
    }
  }

  /** So distinct day numbers never share a civil date. */
  lemma CivilOfInjective(a: int, b: int)
    requires CivilOf(a) == CivilOf(b)
    ensures a == b
  {
    DaysFromCivilOf(a);
    DaysFromCivilOf(b);
  }

  lemma {:induction false} DaysBeforeYearGrows(a: int, b: int)
    requires a <= b
    ensures DaysBeforeYear(a) + 365 * (b - a) <= DaysBeforeYear(b)
    decreases b - a
  {
    if a < b {
      DaysBeforeYearGrows(a, b - 1);
      YearStep(b - 1);
    }
  }

  /** A valid date falls inside its own year's span of day numbers. */
  lemma DayOfYearBounds(c: Civil)
    requires ValidCivil(c)
    ensures DaysBeforeYear(c.year) <= DaysFromCivil(c) < DaysBeforeYear(c.year + 1)
  {
    YearStep(c.year);
  }

  lemma MonthStep(y: int, m: int)
    requires 1 <= m < 12
    ensures DaysBeforeMonth(y, m) + DaysInMonth(y, m) == DaysBeforeMonth(y, m + 1)
  {
  }

  lemma {:induction false} DaysBeforeMonthGrows(y: int, a: int, b: int)
    requires 1 <= a < b <= 12
    ensures DaysBeforeMonth(y, a) + DaysInMonth(y, a) <= DaysBeforeMonth(y, b)
    decreases b - a
  {
    MonthStep(y, a);
    if a + 1 < b {
      DaysBeforeMonthGrows(y, a + 1, b);
    }
  }

  /** Within one year, distinct valid dates have distinct day numbers. */
  lemma SameYearInjective(c1: Civil, c2: Civil)
    requires ValidCivil(c1) && ValidCivil(c2) && c1.year == c2.year
    requires DaysFromCivil(c1) == DaysFromCivil(c2)
    ensures c1 == c2
  {
    if c1.month < c2.month {
      DaysBeforeMonthGrows(c1.year, c1.month, c2.month);
    } else if c2.month < c1.month {
      DaysBeforeMonthGrows(c1.year, c2.month, c1.month);
    }
  }

  /** Distinct valid dates have distinct day numbers. */
  lemma DaysFromCivilInjective(c1: Civil, c2: Civil)
    requires ValidCivil(c1) && ValidCivil(c2)
    requires DaysFromCivil(c1) == DaysFromCivil(c2)
    ensures c1 == c2
  {
    if c1.year < c2.year {
      EarlierYear(c1, c2);
    } else if c2.year < c1.year {
      EarlierYear(c2, c1);
    }
    SameYearInjective(c1, c2);
  }

  /** A date in an earlier year has a smaller day number. */
  lemma EarlierYear(c1: Civil, c2: Civil)
    requires ValidCivil(c1) && ValidCivil(c2) && c1.year < c2.year
    ensures DaysFromCivil(c1) < DaysFromCivil(c2)
  {
    DayOfYearBounds(c1);
    DayOfYearBounds(c2);
    DaysBeforeYearGrows(c1.year + 1, c2.year);
  }

  /** Every valid civil date is reached by `CivilOf`, at its closed-form day
      number: the two counts are inverse to each other. */
  lemma CivilOfDaysFromCivil(c: Civil)
    requires ValidCivil(c)
    ensures CivilOf(DaysFromCivil(c)) == c
  {
    var n := DaysFromCivil(c);
    DaysFromCivilOf(n);
    DaysFromCivilInjective(CivilOf(n), c);
  }

  /** Day `k` of a month, counted on from that month's first day, is the
      civil date with day of month `k` whenever the month has a day `k`. */
  lemma DayOfMonth(y: int, m: int, k: int)
    requires 1 <= m <= 12 && 1 <= k <= DaysInMonth(y, m)
    ensures CivilOf(DaysFromCivil(Civil(y, m, 1)) + k - 1) == Civil(y, m, k)
  {
    var c := Civil(y, m, k);
    assert DaysFromCivil(Civil(y, m, 1)) + k - 1 == DaysFromCivil(c);
    CivilOfDaysFromCivil(c);
  }

  /** ECMA-262's `WeekDay`: 0 is Sunday, 1 Monday, ..., 6 Saturday;
      1970-01-01 was a Thursday. */
  function Weekday(n: int): (w: int)
    ensures 0 <= w < 7
  {
    (n + 4) % 7
  }

  /** The Monday that starts the Monday-to-Sunday week holding day `n`: the
      source steps back `(weekday + 6) % 7` days. */
  function StartOfWeek(n: int): (s: int)
    ensures Weekday(s) == 1 && s <= n <= s + 6
  {
    n - (Weekday(n) + 6) % 7
  }

  /** That Monday is the only one at most six days before `n`. */
  lemma StartOfWeekUnique(n: int, m: int)
    requires Weekday(m) == 1 && m <= n <= m + 6
    ensures StartOfWeek(n) == m
  {
    var s := StartOfWeek(n);
    var qs, qm := (s + 4) / 7, (m + 4) / 7;
    assert s + 4 == 7 * qs + 1 && m + 4 == 7 * qm + 1;
    assert s - m == 7 * (qs - qm);
  }

  /** A mutable local-time date, as far as the week computation uses one:
      the getters of `Date.prototype` and `setDate`. */
  class LocalDate {
    /** The local calendar day this object denotes, as a day number. */
    var dayNumber: int

    /** `new Date(...)` for an instant on local day `n`. */
    constructor (n: int)
      ensures dayNumber == n
    {
      dayNumber := n;
    }

    /** `new Date(d)`: a distinct object for the same time value. */
    constructor Copy(d: LocalDate)
      ensures dayNumber == d.dayNumber
    {
      dayNumber := d.dayNumber;
    }

    /** `getDate()`: the day of the month. */
    function GetDate(): (r: int)
      reads this
      ensures 1 <= r <= 31
    {
      CivilOf(dayNumber).day
    }

    /** `getDay()`: the day of the week, Sunday being 0. */
    function GetDay(): (r: int)
      reads this
      ensures 0 <= r < 7
    {
      Weekday(dayNumber)
    }

    /** `getMonth()`: the month, counted from 0. */
    function GetMonth(): (r: int)
      reads this
      ensures 0 <= r < 12
    {
      CivilOf(dayNumber).month - 1
    }

    /** `getFullYear()`. */
    function GetFullYear(): int
      reads this
    {
      CivilOf(dayNumber).year
    }

    function ToCivil(): (c: Civil)
      reads this
      ensures ValidCivil(c)
    {
      CivilOf(dayNumber)
    }

    /** `setDate(k)`: day `k` of the current month, where values outside the
        month run on into the neighbouring months (ECMA-262 `MakeDay`). */
    method SetDate(k: int)
      modifies this
      ensures dayNumber == old(dayNumber) - old(GetDate()) + k
      ensures dayNumber == DaysFromCivil(Civil(old(GetFullYear()), old(GetMonth()) + 1, 1)) + k - 1
    {
      DaysFromCivilOf(dayNumber);
      dayNumber := dayNumber - GetDate() + k;
    }
  }

  /** `getStartOfWeek(d)`: moves `d` itself back to the Monday of its week
      (`setDate(getDate() - day + (day == 0 ? -6 : 1))`) and returns a new
      date for that Monday. */
  method GetStartOfWeek(d: LocalDate) returns (r: LocalDate)
    modifies d
    ensures fresh(r)
    ensures r.dayNumber == d.dayNumber == StartOfWeek(old(d.dayNumber))
  {
    ghost var n := d.dayNumber;
    var day := d.GetDay();
    var diff := d.GetDate() - day + (if day == 0 then -6 else 1);
    d.SetDate(diff);
    assert d.dayNumber == n - day + (if day == 0 then -6 else 1);
    assert (day + 6) % 7 == if day == 0 then 6 else day - 1;
    r := new LocalDate.Copy(d);
  }
}
