/** The proleptic Gregorian calendar as Go's time package exposes it in UTC: days are counted
    from 0001-01-01, a Monday, and instants in milliseconds from 1970-01-01. */
module Calendar {

  const DAY: int := 86_400_000
  /** Days from 0001-01-01 to 1970-01-01; see EpochDays. */
  const EPOCH_DAY: int := 719162
  /** 0001-01-01 in milliseconds from the epoch. */
  const MIN_TIME: int := -62_135_596_800_000

  type Time = t: int | t >= -62_135_596_800_000

  /** The leap rule of Appendix C of RFC 3339. */
  predicate Leap(y: int) {
    y % 4 == 0 && (y % 100 != 0 || y % 400 == 0)
  }

  function YearDays(y: int): int {
    if Leap(y) then 366 else 365
  }

  function MonthDays(y: int, m: int): int {
    if m == 2 then (if Leap(y) then 29 else 28)
    else if m == 4 || m == 6 || m == 9 || m == 11 then 30
    else 31
  }

  /** The day number of January 1 of year `y`. */
  function YearStart(y: int): (d: int)
    requires y >= 1
    ensures d >= 0
  {
    if y == 1 then 0 else YearStart(y - 1) + YearDays(y - 1)
  }

  /** The day number of the first of month `m`; month 13 is the January that follows. */
  function MonthStart(y: int, m: int): int
    requires y >= 1 && 1 <= m <= 13
  {
    if m == 1 then YearStart(y) else MonthStart(y, m - 1) + MonthDays(y, m - 1)
  }

  lemma TwelveMonths(y: int)
    requires y >= 1
    ensures MonthStart(y, 13) == YearStart(y + 1)
  {
    assert MonthStart(y, 2) == YearStart(y) + 31;
    assert MonthStart(y, 3) == MonthStart(y, 2) + MonthDays(y, 2);
    assert MonthStart(y, 5) == MonthStart(y, 3) + 61;
    assert MonthStart(y, 7) == MonthStart(y, 5) + 61;
    assert MonthStart(y, 9) == MonthStart(y, 7) + 62;
    assert MonthStart(y, 11) == MonthStart(y, 9) + 61;
    assert MonthStart(y, 13) == MonthStart(y, 11) + 61;
  }

  lemma DivStep(n: int)
    ensures n / 4 - (n - 1) / 4 == if n % 4 == 0 then 1 else 0
    ensures n / 100 - (n - 1) / 100 == if n % 100 == 0 then 1 else 0
    ensures n / 400 - (n - 1) / 400 == if n % 400 == 0 then 1 else 0
  {
  }

  lemma LeapDivides(n: int)
    ensures n % 400 == 0 ==> n % 100 == 0
    ensures n % 100 == 0 ==> n % 4 == 0
  {
  }

  lemma {:induction false} YearStartClosed(y: int)
    requires y >= 1
    ensures YearStart(y) == 365 * (y - 1) + (y - 1) / 4 - (y - 1) / 100 + (y - 1) / 400
  {
    if y > 1 {
      YearStartClosed(y - 1);
      DivStep(y - 1);
      LeapDivides(y - 1);
    }
  }

  /** Months start where the Gregorian calendar puts them: March is the month that depends on the year. */
  lemma {:induction false} MonthStartClosed(y: int, m: int)
    requires y >= 1 && 1 <= m <= 13
    ensures MonthStart(y, m) ==
            YearStart(y) + (367 * m - 362) / 12 - (if m <= 2 then 0 else if Leap(y) then 1 else 2)
  {
    if m > 1 {
      MonthStartClosed(y, m - 1);
    }
  }

  lemma EpochDays()
    ensures YearStart(1970) == EPOCH_DAY && MIN_TIME == -EPOCH_DAY * DAY
  {
    YearStartClosed(1970);
  }

  lemma {:induction false} YearStartMonotone(y: int, z: int)
    requires 1 <= y <= z
    ensures YearStart(y) <= YearStart(z)
  {
    if y < z {
      YearStartMonotone(y, z - 1);
    }
  }

  lemma {:induction false} MonthStartMonotone(y: int, m: int, n: int)
    requires y >= 1 && 1 <= m <= n <= 13
    ensures MonthStart(y, m) <= MonthStart(y, n)
  {
    if m < n {
      MonthStartMonotone(y, m, n - 1);
    }
  }

  /** The first year from `y` on that ends after day `d`. */
  function YearFrom(y: int, d: int): (z: int)
    requires y >= 1
    ensures z >= y
    decreases d - YearStart(y)
  {
    if d < YearStart(y + 1) then y else YearFrom(y + 1, d)
  }

  /** Time.Year, on day numbers. */
  function YearOf(d: int): (y: int)
    ensures y >= 1
  {
    YearFrom(1, d)
  }

  function MonthFrom(y: int, m: int, d: int): (n: int)
    requires y >= 1 && 1 <= m <= 12
    ensures m <= n <= 12
    decreases 12 - m
  {
    if m == 12 || d < MonthStart(y, m + 1) then m else MonthFrom(y, m + 1, d)
  }

  /** Time.Month, on day numbers. */
  function MonthOf(d: int): (m: int)
    ensures 1 <= m <= 12
  {
    MonthFrom(YearOf(d), 1, d)
  }

  lemma {:induction false} YearFromBounds(y: int, d: int)
    requires y >= 1 && YearStart(y) <= d
    ensures YearStart(YearFrom(y, d)) <= d < YearStart(YearFrom(y, d) + 1)
    decreases d - YearStart(y)
  {
    if d >= YearStart(y + 1) {
      YearFromBounds(y + 1, d);
    }
  }

  lemma {:induction false} MonthFromBounds(y: int, m: int, d: int)
    requires y >= 1 && 1 <= m <= 12 && MonthStart(y, m) <= d < MonthStart(y, 13)
    ensures MonthStart(y, MonthFrom(y, m, d)) <= d < MonthStart(y, MonthFrom(y, m, d) + 1)
    decreases 12 - m
  {
    if m < 12 && d >= MonthStart(y, m + 1) {
      MonthFromBounds(y, m + 1, d);
    }
  }

  /** The year and the month of a day are those that contain it. */
  lemma YearBounds(d: int)
    requires d >= 0
    ensures YearStart(YearOf(d)) <= d < YearStart(YearOf(d) + 1)
  {
    YearFromBounds(1, d);
  }

  lemma MonthBounds(d: int)
    requires d >= 0
    ensures YearStart(YearOf(d)) <= MonthStart(YearOf(d), MonthOf(d)) <= d < MonthStart(YearOf(d), MonthOf(d) + 1)
  {
    var y := YearOf(d);
    YearBounds(d);
    TwelveMonths(y);
    MonthFromBounds(y, 1, d);
    MonthStartMonotone(y, 1, MonthOf(d));
  }

  lemma YearUnique(d: int, y: int)
    requires y >= 1 && YearStart(y) <= d < YearStart(y + 1)
    ensures d >= 0 && YearOf(d) == y
  {
    YearStartMonotone(1, y);
    YearBounds(d);
    var z := YearOf(d);
    if z < y {
      YearStartMonotone(z + 1, y);
    } else if z > y {
      YearStartMonotone(y + 1, z);
    }
  }

  lemma MonthUnique(d: int, y: int, m: int)
    requires y >= 1 && 1 <= m <= 12 && MonthStart(y, m) <= d < MonthStart(y, m + 1)
    ensures d >= 0 && YearOf(d) == y && MonthOf(d) == m
  {
    TwelveMonths(y);
    MonthStartMonotone(y, m + 1, 13);
    MonthStartMonotone(y, 1, m);
    YearUnique(d, y);
    MonthBounds(d);
    var n := MonthOf(d);
    if n < m {
      MonthStartMonotone(y, n + 1, m);
    } else if n > m {
      MonthStartMonotone(y, m + 1, n);
    }
  }

  /** The day number that holds instant `t`. */
  function DayOf(t: Time): (d: int)
    ensures d >= 0 && (d - EPOCH_DAY) * DAY <= t < (d + 1 - EPOCH_DAY) * DAY
  {
    t / DAY + EPOCH_DAY
  }

  lemma DayUnique(t: Time, d: int)
    requires (d - EPOCH_DAY) * DAY <= t < (d + 1 - EPOCH_DAY) * DAY
    ensures DayOf(t) == d
  {
  }

  /** Midnight at the start of day number `d`. */
  function Midnight(d: int): (t: int)
    ensures d >= 0 ==> t >= MIN_TIME
  {
    (d - EPOCH_DAY) * DAY
  }

  /** time.Date at midnight UTC; month 13 is normalised into the next year. */
  function Date(y: int, m: int, day: int): int
    requires y >= 1 && 1 <= m <= 13
  {
    if m == 13 then Midnight(MonthStart(y + 1, 1) + day - 1)
    else Midnight(MonthStart(y, m) + day - 1)
  }

  /** Time.Day. */
  function DayOfMonth(d: int): int {
    d - MonthStart(YearOf(d), MonthOf(d)) + 1
  }

  /** The year, month and day of a day number are a date of the calendar, and building that date gives the day's
      midnight back. */
  lemma CivilRoundTrip(d: int)
    ensures d >= 0 ==> 1 <= DayOfMonth(d) <= MonthDays(YearOf(d), MonthOf(d))
    ensures Date(YearOf(d), MonthOf(d), DayOfMonth(d)) == Midnight(d)
  {
    if d >= 0 {
      MonthBounds(d);
    }
  }

  /** And every date of the calendar is that of one day number. */
  lemma DateParts(y: int, m: int, day: int, d: int)
    requires y >= 1 && 1 <= m <= 12 && 1 <= day <= MonthDays(y, m)
    ensures Date(y, m, day) == Midnight(d) <==> d >= 0 && YearOf(d) == y && MonthOf(d) == m && DayOfMonth(d) == day
  {
    hide YearOf, MonthOf;
    MonthUnique(MonthStart(y, m) + day - 1, y, m);
  }

  /** Time.Weekday: Sunday is 0. Day number 0 is a Monday. */
  function Weekday(d: int): (w: int)
    requires d >= 0
    ensures 0 <= w < 7
  {
    (d + 1) % 7
  }

  /** The epoch was a Thursday, and the leap rule holds where it is easy to get wrong. */
  lemma KnownDates()
    ensures Weekday(EPOCH_DAY) == 4
    ensures Leap(2000) && !Leap(1900) && Leap(2024) && !Leap(2023)
    ensures Date(1970, 1, 1) == 0
  {
    EpochDays();
  }
}
