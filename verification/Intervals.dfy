/** The seven window kinds, their aligners and their lengths (internal/kline/interval.go,
    calcCloseTime in aggregator.go and intervalMs in continuity.go). */
module Intervals {
  import opened Calendar
  import opened Int64

  datatype Interval = Minute1 | Minute10 | Minute30 | Hour1 | Week1 | Month1 | Year1
  {
    function Name(): string {
      match this
      case Minute1 => "1m"
      case Minute10 => "10m"
      case Minute30 => "30m"
      case Hour1 => "1h"
      case Week1 => "1w"
      case Month1 => "1mon"
      case Year1 => "1y"
    }

    /** Milliseconds; zero for the calendar-based kinds. */
    function Width(): int {
      match this
      case Minute1 => 60_000
      case Minute10 => 600_000
      case Minute30 => 1_800_000
      case Hour1 => 3_600_000
      case Week1 => 604_800_000
      case Month1 => 0
      case Year1 => 0
    }
  }

  const INTERVALS: seq<Interval> := [Minute1, Minute10, Minute30, Hour1, Week1, Month1, Year1]

  function AlignN(width: int, t: int): int
    requires width > 0
  {
    TruncDiv(t, width) * width
  }

  function AlignWeek(t: Time): int {
    var d := DayOf(t);
    var weekday := if Weekday(d) == 0 then 7 else Weekday(d);
    var mon := d - (weekday - 1);
    Date(YearOf(mon), MonthOf(mon), DayOfMonth(mon))
  }

  function Align(iv: Interval, t: Time): int {
    match iv
    case Week1 => AlignWeek(t)
    case Month1 => Date(YearOf(DayOf(t)), MonthOf(DayOf(t)), 1)
    case Year1 => Date(YearOf(DayOf(t)), 1, 1)
    case _ => AlignN(iv.Width(), t)
  }

  /** The close timestamp of the window starting at `start`. */
  function CalcCloseTime(iv: Interval, start: Time): int {
    if iv.Width() > 0 then start + (iv.Width() - 1)
    else if iv == Month1 then Date(YearOf(DayOf(start)), MonthOf(DayOf(start)) + 1, 1) - 1
    else Date(YearOf(DayOf(start)) + 1, 1, 1) - 1
  }

  /** The length of the window starting at `start`. */
  function IntervalMs(iv: Interval, start: Time): int {
    if iv.Width() > 0 then iv.Width()
    else if iv == Month1 then Date(YearOf(DayOf(start)), MonthOf(DayOf(start)) + 1, 1) - start
    else Date(YearOf(DayOf(start)) + 1, 1, 1) - start
  }

  // ---------------------------------------------------------------- tiling

  predicate Fixed(iv: Interval) { iv != Week1 && iv != Month1 && iv != Year1 }

  lemma FixedAlign(w: int, t: int)
    requires w > 0 && t >= 0
    ensures AlignN(w, t) == t / w * w && 0 <= AlignN(w, t) <= t < AlignN(w, t) + w
  {
    assert t == t / w * w + t % w;
    MulMonotone(0, t / w, w);
  }

  lemma FixedWindow(w: int, s: int, u: int)
    requires w > 0 && s >= 0 && s % w == 0 && s <= u < s + w
    ensures AlignN(w, u) == s
  {
    var q := s / w;
    assert s == q * w;
    FixedAlign(w, u);
    var p := u / w;
    assert (p + 1) * w == p * w + w && (q + 1) * w == q * w + w;
    if p < q {
      MulMonotone(p + 1, q, w);
    } else if p > q {
      MulMonotone(q + 1, p, w);
    }
  }

  /** The Monday of the week that holds day `d`. */
  function MondayOf(d: int): (m: int)
    requires d >= 0
    ensures 0 <= m <= d < m + 7 && m % 7 == 0
  {
    d / 7 * 7
  }

  lemma WeekAlign(t: Time)
    ensures AlignWeek(t) == Midnight(MondayOf(DayOf(t)))
  {
    var d := DayOf(t);
    var weekday := if Weekday(d) == 0 then 7 else Weekday(d);
    assert d - (weekday - 1) == MondayOf(d);
    CivilRoundTrip(MondayOf(d));
  }

  /** The day-number bounds of the window of a calendar kind that holds day `d`. */
  function FirstDay(iv: Interval, d: int): int
    requires !Fixed(iv) && d >= 0
  {
    if iv == Week1 then MondayOf(d)
    else if iv == Month1 then MonthStart(YearOf(d), MonthOf(d))
    else YearStart(YearOf(d))
  }

  function NextFirstDay(iv: Interval, d: int): int
    requires !Fixed(iv) && d >= 0
  {
    if iv == Week1 then MondayOf(d) + 7
    else if iv == Month1 then MonthStart(YearOf(d), MonthOf(d) + 1)
    else YearStart(YearOf(d) + 1)
  }

  lemma DayBounds(iv: Interval, d: int)
    requires !Fixed(iv) && d >= 0
    ensures 0 <= FirstDay(iv, d) <= d < NextFirstDay(iv, d)
  {
    YearBounds(d);
    MonthBounds(d);
  }

  /** Every day between the bounds has the same bounds, and the upper bound starts the next window. */
  lemma SameDays(iv: Interval, d: int, e: int)
    requires !Fixed(iv) && d >= 0 && FirstDay(iv, d) <= e < NextFirstDay(iv, d)
    ensures e >= 0 && FirstDay(iv, e) == FirstDay(iv, d) && NextFirstDay(iv, e) == NextFirstDay(iv, d)
  {
    match iv
    case Week1 =>
    case Month1 => MonthUnique(e, YearOf(d), MonthOf(d));
    case Year1 => YearUnique(e, YearOf(d));
  }

  lemma NextStarts(iv: Interval, d: int)
    requires !Fixed(iv) && d >= 0
    ensures NextFirstDay(iv, d) >= 0 && FirstDay(iv, NextFirstDay(iv, d)) == NextFirstDay(iv, d)
  {
    match iv
    case Week1 =>
    case Month1 => NextMonthStarts(YearOf(d), MonthOf(d));
    case Year1 => YearUnique(YearStart(YearOf(d) + 1), YearOf(d) + 1);
  }

  lemma NextMonthStarts(y: int, m: int)
    requires y >= 1 && 1 <= m <= 12
    ensures var n := MonthStart(y, m + 1); n >= 0 && MonthStart(YearOf(n), MonthOf(n)) == n
  {
    TwelveMonths(y);
    if m == 12 {
      MonthUnique(YearStart(y + 1), y + 1, 1);
    } else {
      MonthUnique(MonthStart(y, m + 1), y, m + 1);
    }
  }

  lemma CalendarAlign(iv: Interval, t: Time)
    requires !Fixed(iv)
    ensures Align(iv, t) == Midnight(FirstDay(iv, DayOf(t)))
    ensures MIN_TIME <= Align(iv, t) <= t && DayOf(Align(iv, t)) == FirstDay(iv, DayOf(t))
  {
    if iv == Week1 {
      WeekAlign(t);
    }
    DayBounds(iv, DayOf(t));
    DayUnique(Midnight(FirstDay(iv, DayOf(t))), FirstDay(iv, DayOf(t)));
  }

  lemma CalendarLength(iv: Interval, t: Time)
    requires !Fixed(iv)
    ensures var s := Align(iv, t);
            s >= MIN_TIME && t < s + IntervalMs(iv, s) == Midnight(NextFirstDay(iv, DayOf(t)))
            && CalcCloseTime(iv, s) + 1 == s + IntervalMs(iv, s)
  {
    var d := DayOf(t);
    CalendarAlign(iv, t);
    DayBounds(iv, d);
    SameDays(iv, d, FirstDay(iv, d));
    if iv == Month1 {
      MonthUnique(FirstDay(iv, d), YearOf(d), MonthOf(d));
      TwelveMonths(YearOf(d));
    } else if iv == Year1 {
      YearUnique(FirstDay(iv, d), YearOf(d));
    }
  }

  lemma AlignInRange(iv: Interval, t: Time)
    requires t >= 0
    ensures Align(iv, t) >= MIN_TIME
  {
    if Fixed(iv) { FixedAlign(iv.Width(), t); } else { CalendarAlign(iv, t); }
  }

  /** The end of the window that starts at `s`. */
  function EndOf(iv: Interval, s: Time): int { s + IntervalMs(iv, s) }

  lemma FixedTiling(iv: Interval, t: Time)
    requires Fixed(iv) && t >= 0
    ensures var s := Align(iv, t);
            s >= 0 && s % iv.Width() == 0 && s <= t < s + iv.Width()
            && Align(iv, s + iv.Width()) == s + iv.Width()
  {
    var w := iv.Width();
    FixedAlign(w, t);
    var q := t / w;
    assert q * w + w == (q + 1) * w;
    ModOfProduct(q, w);
    ModOfProduct(q + 1, w);
    FixedWindow(w, (q + 1) * w, (q + 1) * w);
  }

  lemma CalendarTiling(iv: Interval, t: Time)
    requires !Fixed(iv)
    ensures var s := Align(iv, t);
            s >= MIN_TIME && s <= t < EndOf(iv, s)
            && CalcCloseTime(iv, s) + 1 == EndOf(iv, s) && Align(iv, EndOf(iv, s)) == EndOf(iv, s)
  {
    CalendarAlign(iv, t);
    CalendarLength(iv, t);
    NextAligned(iv, DayOf(t), EndOf(iv, Align(iv, t)));
  }

  lemma NextAligned(iv: Interval, d: int, e: int)
    requires !Fixed(iv) && d >= 0 && e == Midnight(NextFirstDay(iv, d))
    ensures e >= MIN_TIME && Align(iv, e) == e
  {
    NextStarts(iv, d);
    DayUnique(e, NextFirstDay(iv, d));
    CalendarAlign(iv, e);
  }

  /** Every instant lies in its window, the window's close time is one millisecond before its end,
      and the end starts the next window. */
  lemma Tiling(iv: Interval, t: Time)
    requires t >= 0
    ensures var s := Align(iv, t);
            s >= MIN_TIME && s <= t < EndOf(iv, s)
            && CalcCloseTime(iv, s) + 1 == EndOf(iv, s) && Align(iv, EndOf(iv, s)) == EndOf(iv, s)
  {
    if Fixed(iv) { FixedTiling(iv, t); } else { CalendarTiling(iv, t); }
  }

  lemma CalendarWindow(iv: Interval, t: Time, u: Time)
    requires !Fixed(iv) && Align(iv, t) >= MIN_TIME && Align(iv, t) <= u < EndOf(iv, Align(iv, t))
    ensures Align(iv, u) == Align(iv, t)
  {
    CalendarAlign(iv, t);
    CalendarLength(iv, t);
    DayBounds(iv, DayOf(t));
    SameDays(iv, DayOf(t), DayOf(u));
    CalendarAlign(iv, u);
  }

  /** Every instant of a window aligns to its start: the windows partition time. */
  lemma WindowUnique(iv: Interval, t: Time, u: Time)
    requires t >= 0 && Align(iv, t) >= MIN_TIME && Align(iv, t) <= u < EndOf(iv, Align(iv, t))
    ensures Align(iv, u) == Align(iv, t)
  {
    if Fixed(iv) {
      FixedTiling(iv, t);
      FixedWindow(iv.Width(), Align(iv, t), u);
    } else {
      CalendarWindow(iv, t, u);
    }
  }

  lemma AlignIdempotent(iv: Interval, t: Time)
    requires t >= 0
    ensures Align(iv, t) >= MIN_TIME && Align(iv, Align(iv, t)) == Align(iv, t)
  {
    Tiling(iv, t);
    WindowUnique(iv, t, Align(iv, t));
  }

  lemma AlignMonotone(iv: Interval, t: Time, u: Time)
    requires 0 <= t <= u
    ensures Align(iv, t) <= Align(iv, u)
  {
    Tiling(iv, t);
    Tiling(iv, u);
    var s := Align(iv, t);
    if u < EndOf(iv, s) {
      WindowUnique(iv, t, u);
    } else if Align(iv, u) < s {
      // Then `t` would lie in the window of `u`.
      WindowUnique(iv, u, t);
    }
  }

  lemma FixedSlot(w: int, n: int, d: int, i: int, t: int)
    requires w > 0 && n * w == DAY && d >= EPOCH_DAY && 0 <= i < n
    requires Midnight(d) + i * w <= t < Midnight(d) + (i + 1) * w
    ensures AlignN(w, t) == Midnight(d) + i * w
  {
    var q := (d - EPOCH_DAY) * n + i;
    MulAssoc(d - EPOCH_DAY, n, w);
    assert q * w == (d - EPOCH_DAY) * n * w + i * w;
    assert (i + 1) * w == i * w + w;
    MulMonotone(0, q, w);
    ModOfProduct(q, w);
    FixedWindow(w, q * w, t);
  }

  /** Every day holds 1440 one-minute windows, 144 of ten minutes, 48 half hours and 24 hours, one after the other
      from midnight. */
  lemma DaySlots(iv: Interval, n: int, d: int, i: int, t: Time)
    requires (iv, n) in {(Minute1, 1440), (Minute10, 144), (Minute30, 48), (Hour1, 24)}
    requires d >= EPOCH_DAY && 0 <= i < n
    requires var w := 86_400_000 / n; Midnight(d) + i * w <= t < Midnight(d) + (i + 1) * w
    ensures var w := 86_400_000 / n;
            var s := Midnight(d) + i * w;
            s >= 0 && Align(iv, t) == s && EndOf(iv, s) == s + w
  {
    MulMonotone(0, i, 86_400_000 / n);
    match iv
    case Minute1 => FixedSlot(60_000, 1440, d, i, t);
    case Minute10 => FixedSlot(600_000, 144, d, i, t);
    case Minute30 => FixedSlot(1_800_000, 48, d, i, t);
    case Hour1 => FixedSlot(3_600_000, 24, d, i, t);
  }

  /** A week runs from one Monday to the next. */
  lemma WeekSlots(d: int, t: Time)
    requires d >= 0 && Weekday(d) == 1 && Midnight(d) <= t < Midnight(d + 7)
    ensures Midnight(d) >= MIN_TIME && Align(Week1, t) == Midnight(d) && EndOf(Week1, Midnight(d)) == Midnight(d + 7)
  {
    hide AlignWeek, Weekday, MondayOf;
    WeekAlign(t);
    MondayIs(d, DayOf(t));
  }

  lemma MondayIs(d: int, e: int)
    requires d >= 0 && Weekday(d) == 1 && d <= e < d + 7
    ensures MondayOf(e) == d
  {
  }

  /** A month runs from its first day to the first of the next month, and a year to the next January. */
  lemma MonthSlots(y: int, m: int, t: Time)
    requires y >= 1 && 1 <= m <= 12 && Midnight(MonthStart(y, m)) <= t < Midnight(MonthStart(y, m + 1))
    ensures Midnight(MonthStart(y, m)) >= MIN_TIME && Align(Month1, t) == Midnight(MonthStart(y, m))
    ensures EndOf(Month1, Midnight(MonthStart(y, m))) == Midnight(MonthStart(y, m + 1))
    ensures YearStart(y) >= 0 && Align(Year1, t) == Midnight(YearStart(y))
    ensures EndOf(Year1, Midnight(YearStart(y))) == Midnight(YearStart(y + 1))
  {
    var d := DayOf(t);
    MonthUnique(d, y, m);
    CalendarLength(Month1, t);
    CalendarAlign(Month1, t);
    CalendarLength(Year1, t);
    CalendarAlign(Year1, t);
  }

  /** The first instant of July 2024 is 1719792000000. */
  lemma JulyTrade(t: Time)
    requires 1_719_792_000_000 <= t < 1_719_792_000_000 + 31 * DAY
    ensures Align(Month1, t) == 1_719_792_000_000 && EndOf(Month1, Align(Month1, t)) == 1_722_470_400_000
    ensures Align(Year1, t) == 1_704_067_200_000
  {
    hide YearStart, MonthStart, Align, EndOf;
    YearStartClosed(2024);
    MonthStartClosed(2024, 7);
    MonthStartClosed(2024, 8);
    MonthSlots(2024, 7, t);
  }

  // ---------------------------------------------------------------- nesting

  /** Which kinds of window are made of whole windows of which other kind. */
  predicate Nests(inner: Interval, outer: Interval) {
    match outer
    case Minute1 => inner == Minute1
    case Minute10 => inner == Minute1 || inner == Minute10
    case Minute30 => inner == Minute1 || inner == Minute10 || inner == Minute30
    case Hour1 => Fixed(inner)
    case Week1 => Fixed(inner) || inner == Week1
    case Month1 => Fixed(inner) || inner == Month1
    case Year1 => Fixed(inner) || inner == Month1 || inner == Year1
  }

  lemma MultipleOrder(w: int, q: int, t: int)
    requires w > 0 && t >= 0
    ensures q * w <= t ==> q * w <= AlignN(w, t)
    ensures q * w > t ==> q * w >= AlignN(w, t) + w
  {
    FixedAlign(w, t);
    var p := t / w;
    assert (p + 1) * w == p * w + w && (q + 1) * w == q * w + w;
    if q <= p {
      MulMonotone(q, p, w);
    } else {
      MulMonotone(p + 1, q, w);
    }
  }

  lemma MultipleWidths(w: int, k: int, v: int, t: int)
    requires w > 0 && k > 0 && v == k * w && v > 0 && t >= 0
    ensures AlignN(v, AlignN(w, t)) == AlignN(v, t) && AlignN(w, t) + w <= AlignN(v, t) + v
  {
    FixedAlign(w, t);
    FixedAlign(v, t);
    var p := t / v;
    MulAssoc(p, k, w);
    MulAssoc(p + 1, k, w);
    assert (p + 1) * v == p * v + v;
    MultipleOrder(w, p * k, t);
    MultipleOrder(w, (p + 1) * k, t);
    ModOfProduct(p, v);
    FixedWindow(v, p * v, AlignN(w, t));
  }

  lemma ModOfProduct(p: int, v: int)
    requires v > 0
    ensures (p * v) % v == 0
  {
    var x := p * v;
    var q := x / v;
    assert x == q * v + x % v;
    assert (q + 1) * v == q * v + v && (p + 1) * v == p * v + v;
    if p > q {
      MulMonotone(q + 1, p, v);
    } else if p < q {
      MulMonotone(p + 1, q, v);
    }
  }

  /** An hour or less never crosses midnight. */
  lemma WithinDay(iv: Interval, t: Time)
    requires Fixed(iv) && t >= 0
    ensures DayOf(Align(iv, t)) == DayOf(t) && Align(iv, t) + iv.Width() <= Midnight(DayOf(t) + 1)
  {
    var w := iv.Width();
    var k := DAY / w;
    assert k * w == DAY;
    MultipleWidths(w, k, DAY, t);
    FixedAlign(w, t);
    FixedAlign(DAY, t);
    FixedAlign(DAY, AlignN(w, t));
  }

  lemma HourInCalendar(inner: Interval, outer: Interval, t: Time)
    requires Fixed(inner) && !Fixed(outer) && t >= 0
    ensures var s, o := Align(inner, t), Align(outer, t);
            s >= MIN_TIME && o >= MIN_TIME
            && Align(outer, s) == o && EndOf(inner, s) <= EndOf(outer, o)
  {
    FixedAlign(inner.Width(), t);
    WithinDay(inner, t);
    CalendarAlign(outer, t);
    CalendarLength(outer, t);
    CalendarAlign(outer, Align(inner, t));
    DayBounds(outer, DayOf(t));
  }

  /** A window of a nested kind lies inside one window of the outer kind. */
  lemma Nesting(inner: Interval, outer: Interval, t: Time)
    requires Nests(inner, outer) && t >= 0
    ensures var s, o := Align(inner, t), Align(outer, t);
            s >= MIN_TIME && o >= MIN_TIME
            && Align(outer, s) == o && EndOf(inner, s) <= EndOf(outer, o)
  {
    AlignInRange(inner, t);
    AlignInRange(outer, t);
    if inner == outer {
      AlignIdempotent(inner, t);
    } else if Fixed(outer) {
      var w := inner.Width();
      var k := outer.Width() / w;
      assert k * w == outer.Width();
      MultipleWidths(w, k, outer.Width(), t);
    } else if Fixed(inner) {
      HourInCalendar(inner, outer, t);
    } else {
      MonthInYear(t);
    }
  }

  lemma MonthDaysInYear(d: int)
    requires d >= 0
    ensures FirstDay(Month1, d) >= 0 && FirstDay(Year1, FirstDay(Month1, d)) == FirstDay(Year1, d)
    ensures NextFirstDay(Month1, d) <= NextFirstDay(Year1, d)
  {
    var y, m := YearOf(d), MonthOf(d);
    MonthBounds(d);
    MonthUnique(MonthStart(y, m), y, m);
    TwelveMonths(y);
    MonthStartMonotone(y, m + 1, 13);
  }

  lemma MonthInYear(t: Time)
    ensures var s, o := Align(Month1, t), Align(Year1, t);
            s >= MIN_TIME && o >= MIN_TIME
            && Align(Year1, s) == o && EndOf(Month1, s) <= EndOf(Year1, o)
  {
    CalendarAlign(Month1, t);
    CalendarAlign(Year1, t);
    CalendarLength(Month1, t);
    CalendarLength(Year1, t);
    CalendarAlign(Year1, Align(Month1, t));
    MonthDaysInYear(DayOf(t));
  }

  /** Early 1970 in calendar windows: the epoch is a Thursday in the week of day EPOCH_DAY - 3. */
  lemma EarlyWindows()
    ensures FirstDay(Month1, EPOCH_DAY) == EPOCH_DAY == FirstDay(Year1, EPOCH_DAY)
    ensures FirstDay(Month1, EPOCH_DAY + 19) == EPOCH_DAY == FirstDay(Year1, EPOCH_DAY + 19)
    ensures FirstDay(Month1, EPOCH_DAY + 31) == EPOCH_DAY + 31 && FirstDay(Year1, EPOCH_DAY + 31) == EPOCH_DAY
    ensures FirstDay(Week1, EPOCH_DAY) == EPOCH_DAY - 3 && FirstDay(Week1, EPOCH_DAY + 19) == EPOCH_DAY + 18
  {
    EpochDays();
    assert MonthStart(1970, 2) == EPOCH_DAY + 31;
    assert MonthStart(1970, 3) == EPOCH_DAY + 59;
    MonthUnique(EPOCH_DAY, 1970, 1);
    MonthUnique(EPOCH_DAY + 19, 1970, 1);
    MonthUnique(EPOCH_DAY + 31, 1970, 2);
  }

  /** Every other pair of kinds is not nested: some window of the inner kind straddles a boundary. */
  lemma NotNested(inner: Interval, outer: Interval) returns (t: Time)
    requires !Nests(inner, outer)
    ensures t >= 0 && Align(inner, t) >= MIN_TIME && Align(outer, Align(inner, t)) != Align(outer, t)
  {
    if Fixed(outer) {
      t := outer.Width();
      StraddlesFixed(inner, outer);
    } else {
      var days := if inner == Week1 then 0 else if outer == Week1 then 19 else 31;
      t := days * DAY;
      StraddlesCalendar(inner, outer, t, EPOCH_DAY + days);
    }
  }

  lemma StraddlesCalendar(inner: Interval, outer: Interval, t: Time, d: int)
    requires !Fixed(outer) && !Nests(inner, outer) && t == Midnight(d)
    requires d == EPOCH_DAY + (if inner == Week1 then 0 else if outer == Week1 then 19 else 31)
    ensures Align(inner, t) >= MIN_TIME && Align(outer, Align(inner, t)) != Align(outer, t)
  {
    DayUnique(t, d);
    CalendarAlign(inner, t);
    CalendarAlign(outer, t);
    CalendarAlign(outer, Align(inner, t));
    EarlyWindows();
    DayBounds(outer, FirstDay(inner, d));
  }

  lemma StraddlesFixed(inner: Interval, outer: Interval)
    requires Fixed(outer) && !Nests(inner, outer)
    ensures var w := outer.Width();
            Align(inner, w) >= MIN_TIME && Align(outer, Align(inner, w)) != Align(outer, w)
  {
    var w := outer.Width();
    FixedAlign(w, w);
    assert Align(outer, w) == w;
    if Fixed(inner) {
      FixedWindow(inner.Width(), 0, w);
    } else {
      EarlyWindows();
      DayUnique(w, EPOCH_DAY);
      CalendarAlign(inner, w);
    }
    assert Align(inner, w) <= 0;
    NonPositiveAlign(w, Align(inner, w));
  }

  lemma NonPositiveAlign(w: int, s: int)
    requires w > 0 && s <= 0
    ensures AlignN(w, s) <= 0
  {
    var q := Abs(s) / w;
    MulMonotone(0, q, w);
    assert (-q) * w == -(q * w);
  }

  /** A kind nests in another exactly when aligning to the inner kind first never changes
      what aligning to the outer kind gives. */
  lemma NestsExactly(inner: Interval, outer: Interval)
    ensures Nests(inner, outer) <==>
            forall t: Time :: t >= 0 ==> Align(inner, t) >= MIN_TIME && Align(outer, Align(inner, t)) == Align(outer, t)
  {
    if Nests(inner, outer) {
      forall t: Time | t >= 0
        ensures Align(inner, t) >= MIN_TIME && Align(outer, Align(inner, t)) == Align(outer, t)
      {
        Nesting(inner, outer, t);
      }
    } else {
      var t := NotNested(inner, outer);
    }
  }
}
