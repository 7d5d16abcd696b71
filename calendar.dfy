/**
  * The proleptic Gregorian calendar as Python's `datetime.date` sees it.
  * A date is its ordinal (`date.toordinal()`: 0001-01-01 is day 1), so date
  * arithmetic and `timedelta(days=1)` are integer arithmetic. The weekday and
  * the ISO 8601 week date (ISO 8601:2004 section 4.1.4) follow CPython's
  * `weekday()` and `isocalendar()`.
  */
module Calendar {

  /** A day number: `date.toordinal()`. */
  type Date = int

  /** 0001-01-01 and 9999-12-31, the range of `datetime.date`. */
  const MinOrdinal: int := 1
  const MaxOrdinal: int := 3652059

  predicate IsLeap(y: int) {
    y % 4 == 0 && (y % 100 != 0 || y % 400 == 0)
  }

  function DaysInYear(y: int): int {
    if IsLeap(y) then 366 else 365
  }

  function DaysInMonth(y: int, m: int): int
    requires 1 <= m <= 12
  {
    if m == 2 then (if IsLeap(y) then 29 else 28)
    else if m == 4 || m == 6 || m == 9 || m == 11 then 30
    else 31
  }

  /** The days of the years before `y`. */
  function DaysBeforeYear(y: int): int {
    var k := y - 1;
    k * 365 + k / 4 - k / 100 + k / 400
  }

  /** The days of the months of year `y` before month `m`. */
  function DaysBeforeMonth(y: int, m: int): int
    requires 1 <= m <= 12
  {
    var table := [0, 31, 59, 90, 120, 151, 181, 212, 243, 273, 304, 334];
    table[m - 1] + (if m > 2 && IsLeap(y) then 1 else 0)
  }

  /** A real calendar day in the range `datetime.date` accepts. */
  predicate ValidDate(y: int, m: int, d: int) {
    1 <= y <= 9999 && 1 <= m <= 12 && 1 <= d <= DaysInMonth(y, m)
  }

  /** `date(y, m, d).toordinal()`. */
  function Ordinal(y: int, m: int, d: int): int
    requires ValidDate(y, m, d)
  {
    DaysBeforeYear(y) + DaysBeforeMonth(y, m) + d
  }

  /** Monday is 0 and Sunday is 6: `date.weekday()`. */
  function Weekday(d: Date): (r: int)
    ensures 0 <= r < 7
  {
    (d + 6) % 7
  }

  /** Stepping `k` by one moves `k / n` up exactly when `n` divides `k + 1`. */
  lemma DivStep(k: int, n: int)
    requires n == 4 || n == 100 || n == 400
    ensures (k + 1) / n - k / n == (if (k + 1) % n == 0 then 1 else 0)
  {
  }

  lemma {:induction false} YearLength(y: int)
    ensures DaysBeforeYear(y + 1) - DaysBeforeYear(y) == DaysInYear(y)
  {
    var k := y - 1;
    DivStep(k, 4);
    DivStep(k, 100);
    DivStep(k, 400);
  }

  /** The ordinal of a valid date lies inside its year's range of day numbers. */
  lemma OrdinalInYear(y: int, m: int, d: int)
    requires ValidDate(y, m, d)
    ensures DaysBeforeYear(y) < Ordinal(y, m, d) <= DaysBeforeYear(y + 1)
  {
    YearLength(y);
  }

  /** Distinct valid dates have distinct ordinals. */
  lemma {:induction false} OrdinalInjective(y1: int, m1: int, d1: int, y2: int, m2: int, d2: int)
    requires ValidDate(y1, m1, d1) && ValidDate(y2, m2, d2)
    requires Ordinal(y1, m1, d1) == Ordinal(y2, m2, d2)
    ensures y1 == y2 && m1 == m2 && d1 == d2
  {
    OrdinalInYear(y1, m1, d1);
    OrdinalInYear(y2, m2, d2);
    if y1 < y2 {
      YearsIncrease(y1 + 1, y2);
    } else if y2 < y1 {
      YearsIncrease(y2 + 1, y1);
    } else {
      DayOfYearInjective(y1, m1, d1, m2, d2);
    }
  }

  /** Within one year, distinct month-day pairs have distinct day-of-year numbers. */
  lemma DayOfYearInjective(y: int, m1: int, d1: int, m2: int, d2: int)
    requires ValidDate(y, m1, d1) && ValidDate(y, m2, d2)
    requires DaysBeforeMonth(y, m1) + d1 == DaysBeforeMonth(y, m2) + d2
    ensures m1 == m2 && d1 == d2
  {
  }

  lemma {:induction false} YearsIncrease(a: int, b: int)
    requires a <= b
    ensures DaysBeforeYear(a) <= DaysBeforeYear(b)
    decreases b - a
  {
    if a < b {
      YearLength(a);
      YearsIncrease(a + 1, b);
    }
  }

  lemma DaysBeforeYearBound(y: int)
    requires y >= 1
    ensures DaysBeforeYear(y) <= (y - 1) * 366
  {
  }

  /** The year containing day `d`, searched upward from `y`. */
  function YearFrom(y: int, d: Date): (r: int)
    requires y >= 1 && DaysBeforeYear(y) < d
    ensures r >= y && DaysBeforeYear(r) < d <= DaysBeforeYear(r + 1)
    decreases d - DaysBeforeYear(y)
  {
    YearLength(y);
    if d <= DaysBeforeYear(y + 1) then y else YearFrom(y + 1, d)
  }

  /** The calendar year of day `d` (`date.fromordinal(d).year`). */
  function YearOf(d: Date): (r: int)
    requires d >= 1
    ensures r >= 1 && DaysBeforeYear(r) < d <= DaysBeforeYear(r + 1)
  {
    var y := (d - 1) / 366 + 1;
    DaysBeforeYearBound(y);
    YearFrom(y, d)
  }

  /** The year of a day is unique. */
  lemma YearOfUnique(d: Date, y: int)
    requires d >= 1 && y >= 1
    requires DaysBeforeYear(y) < d <= DaysBeforeYear(y + 1)
    ensures YearOf(d) == y
  {
    var r := YearOf(d);
    if r < y {
      YearsIncrease(r + 1, y);
    } else if y < r {
      YearsIncrease(y + 1, r);
    }
  }

  lemma YearOfOrdinal(y: int, m: int, d: int)
    requires ValidDate(y, m, d)
    ensures YearOf(Ordinal(y, m, d)) == y
  {
    OrdinalInYear(y, m, d);
    YearOfUnique(Ordinal(y, m, d), y);
  }

  // ---------------------------------------------------------------------------
  // ISO 8601 week dates

  datatype IsoDate = IsoDate(year: int, week: int, weekday: int)

  /** The Thursday of the Monday-to-Sunday week that holds day `d`. */
  function ThursdayOf(d: Date): (r: Date)
    requires d >= 1
    ensures r >= 4 && r == d - Weekday(d) + 3
  {
    d - Weekday(d) + 3
  }

  /**
    * `date.fromordinal(d).isocalendar()`: a week belongs to the calendar
    * year of its Thursday, so week 1 is the week holding that year's first
    * Thursday; weeks count from 1 within the ISO year and the ISO weekday
    * runs Monday = 1 .. Sunday = 7.
    */
  function IsoCalendar(d: Date): IsoDate
    requires d >= 1
  {
    var th := ThursdayOf(d);
    var y := YearOf(th);
    IsoDate(y, (th - DaysBeforeYear(y) - 1) / 7 + 1, Weekday(d) + 1)
  }

  /** An ISO week number is 1 .. 53 and the ISO weekday 1 .. 7. */
  lemma IsoCalendarBounds(d: Date)
    requires d >= 1
    ensures 1 <= IsoCalendar(d).week <= 53
    ensures 1 <= IsoCalendar(d).weekday <= 7
  {
    YearLength(YearOf(ThursdayOf(d)));
  }

  /** 4 January is always in ISO week 1 of its own year. */
  lemma FourthOfJanuaryInWeekOne(y: int)
    requires 1 <= y
    ensures IsoCalendar(DaysBeforeYear(y) + 4).year == y
    ensures IsoCalendar(DaysBeforeYear(y) + 4).week == 1
  {
    var d := DaysBeforeYear(y) + 4;
    YearLength(y);
    if y == 1 {
      assert d == 4 && Weekday(d) == 3;
    }
    YearOfUnique(ThursdayOf(d), y);
  }

  /** A day other than a Monday is in the same ISO week as the day before it. */
  lemma SameIsoWeek(d: Date)
    requires d >= 2 && Weekday(d) != 0
    ensures IsoCalendar(d).week == IsoCalendar(d - 1).week
    ensures IsoCalendar(d).year == IsoCalendar(d - 1).year
  {
    assert ThursdayOf(d) == ThursdayOf(d - 1);
  }

  /** Every day of a Monday-to-Sunday week carries its Monday's ISO week. */
  lemma SameWeekAsMonday(m: Date, d: Date)
    requires 1 <= m <= d < m + 7
    requires Weekday(m) == 0
    ensures IsoCalendar(d).week == IsoCalendar(m).week
  {
    assert ThursdayOf(d) == ThursdayOf(m);
  }

  /** A year starts at least 365 days after any earlier year does. */
  lemma YearsApart(a: int, b: int)
    requires a < b
    ensures DaysBeforeYear(b) - DaysBeforeYear(a) >= 365
  {
    YearLength(a);
    YearsIncrease(a + 1, b);
  }

  /**
    * Week indices of two Thursdays 7 .. 363 days apart, each counted from
    * the start of its year, differ when the years are the same or the later
    * one starts at least 365 days after the earlier.
    */
  lemma WeekIndexDiffer(t1: int, t2: int, start1: int, end1: int, start2: int, k: int)
    requires start1 < t1 <= end1 && start2 < t2
    requires t2 - t1 == 7 * k && 1 <= k <= 51
    requires start1 == start2 || start2 - start1 >= 365
    ensures (t1 - start1 - 1) / 7 != (t2 - start2 - 1) / 7
  {
  }

  /**
    * Two Mondays less than a year (364 days) apart fall in different ISO
    * weeks: their week numbers differ even when their ISO years do.
    */
  lemma DistinctIsoWeeks(m1: Date, m2: Date)
    requires 1 <= m1 < m2 <= m1 + 363
    requires Weekday(m1) == 0 && Weekday(m2) == 0
    ensures IsoCalendar(m1).week != IsoCalendar(m2).week
  {
    var t1, t2 := m1 + 3, m2 + 3;
    assert ThursdayOf(m1) == t1 && ThursdayOf(m2) == t2;
    var q1, q2 := (m1 + 6) / 7, (m2 + 6) / 7;
    assert m1 + 6 == 7 * q1 && m2 + 6 == 7 * q2;
    YearOrder(t1, t2);
    var y1, y2 := YearOf(t1), YearOf(t2);
    WeekIndexDiffer(t1, t2, DaysBeforeYear(y1), DaysBeforeYear(y1 + 1), DaysBeforeYear(y2), q2 - q1);
  }

  /** A later day is in the same or a later year, and a later year starts at least 365 days later. */
  lemma YearOrder(t1: Date, t2: Date)
    requires 1 <= t1 < t2
    ensures YearOf(t1) <= YearOf(t2)
    ensures YearOf(t1) == YearOf(t2) || DaysBeforeYear(YearOf(t2)) - DaysBeforeYear(YearOf(t1)) >= 365
  {
    var y1, y2 := YearOf(t1), YearOf(t2);
    if y2 < y1 {
      YearsIncrease(y2 + 1, y1);
    } else if y1 < y2 {
      YearsApart(y1, y2);
    }
  }

  /** `isocalendar()` spelled out once the calendar year of the day's Thursday is known. */
  lemma IsoCalendarIn(d: Date, y: int)
    requires d >= 1 && y >= 1
    requires DaysBeforeYear(y) < ThursdayOf(d) <= DaysBeforeYear(y + 1)
    ensures IsoCalendar(d) == IsoDate(y, (ThursdayOf(d) - DaysBeforeYear(y) - 1) / 7 + 1, Weekday(d) + 1)
  {
    YearOfUnique(ThursdayOf(d), y);
  }

  // ---------------------------------------------------------------------------
  // The week number flights are bucketed by

  /**
    * The scrapers' adjusted week number: a Monday is moved back to the
    * Sunday before, then the ISO week number is taken and the ISO year
    * dropped. Day 1 (0001-01-01) is a Monday whose Sunday does not exist:
    * Python raises OverflowError there.
    */
  function WeekNumber(d: Date): (r: int)
    requires d >= 2
  {
    if Weekday(d) == 0 then IsoCalendar(d - 1).week else IsoCalendar(d).week
  }

  /**
    * The adjusted week of any day is the ISO week of the day before it:
    * adjusted weeks run Tuesday to Monday.
    */
  lemma WeekNumberIsPreviousDayIsoWeek(d: Date)
    requires d >= 2
    ensures WeekNumber(d) == IsoCalendar(d - 1).week
    ensures 1 <= WeekNumber(d) <= 53
  {
    if Weekday(d) != 0 {
      SameIsoWeek(d);
    }
    IsoCalendarBounds(d - 1);
  }

  /**
    * A Friday or Saturday and a Tuesday on or after it, less than 360 days
    * apart, never share an adjusted week number: the Tuesday's adjusted week
    * starts on a Tuesday after the Friday's or Saturday's.
    */
  lemma {:induction false} NoTuesdayInStartWeek(s: Date, b: Date)
    requires 2 <= s <= b < s + 360
    requires Weekday(s) == 4 || Weekday(s) == 5
    requires Weekday(b) == 1
    ensures WeekNumber(s) != WeekNumber(b)
  {
    // neither day is a Monday, so each keeps its own ISO week, the week of
    // the Monday `ms` or `mb`
    var q, r := (s + 6) / 7, (b + 6) / 7;
    assert s + 6 == 7 * q + Weekday(s) && b + 6 == 7 * r + 1;
    var ms, mb := 7 * q - 6, 7 * r - 6;
    MondayAt(q);
    MondayAt(r);
    SameWeekAsMonday(ms, s);
    SameWeekAsMonday(mb, b);
    DistinctIsoWeeks(ms, mb);
  }

  /** Day `7 * q - 6` is a Monday (day 1 is one). */
  lemma MondayAt(q: int)
    ensures Weekday(7 * q - 6) == 0
  {
  }

  /** The day numbers of 2025-09-12, 2025-09-15 and 2026-09-08. */
  lemma OrdinalExamples()
    ensures Ordinal(2025, 9, 12) == 739506 && Ordinal(2025, 9, 15) == 739509
    ensures Ordinal(2026, 9, 8) == 739867
  {
    assert DaysBeforeYear(2025) == 739251 && DaysBeforeYear(2026) == 739616;
  }

  /** 2025-09-15, a Monday, is in ISO week 38 of 2025. */
  lemma IsoExample20250915()
    ensures IsoCalendar(739509) == IsoDate(2025, 38, 1)
  {
    assert DaysBeforeYear(2025) == 739251 && DaysBeforeYear(2026) == 739616;
    assert Weekday(739509) == 0 && ThursdayOf(739509) == 739512;
    IsoCalendarIn(739509, 2025);
  }

  /** 2025-09-14, a Sunday, is in ISO week 37 of 2025. */
  lemma IsoExample20250914()
    ensures IsoCalendar(739508) == IsoDate(2025, 37, 7)
  {
    assert DaysBeforeYear(2025) == 739251 && DaysBeforeYear(2026) == 739616;
    assert Weekday(739508) == 6 && ThursdayOf(739508) == 739505;
    IsoCalendarIn(739508, 2025);
  }

  /** 2025-09-12, a Friday, is in ISO week 37 of 2025. */
  lemma IsoExample20250912()
    ensures IsoCalendar(739506) == IsoDate(2025, 37, 5)
  {
    assert DaysBeforeYear(2025) == 739251 && DaysBeforeYear(2026) == 739616;
    assert Weekday(739506) == 4 && ThursdayOf(739506) == 739505;
    IsoCalendarIn(739506, 2025);
  }

  /** 2026-09-08, a Tuesday, is in ISO week 37 of 2026. */
  lemma IsoExample20260908()
    ensures IsoCalendar(739867) == IsoDate(2026, 37, 2)
  {
    assert DaysBeforeYear(2026) == 739616 && DaysBeforeYear(2027) == 739981;
    assert Weekday(739867) == 1 && ThursdayOf(739867) == 739869;
    IsoCalendarIn(739867, 2026);
  }

  /** 2026-09-12, a Saturday, is in ISO week 37 of 2026. */
  lemma IsoExample20260912()
    ensures IsoCalendar(739871) == IsoDate(2026, 37, 6)
  {
    assert DaysBeforeYear(2026) == 739616 && DaysBeforeYear(2027) == 739981;
    assert Weekday(739871) == 5 && ThursdayOf(739871) == 739869;
    IsoCalendarIn(739871, 2026);
  }

  /** 2025-09-15 is a Monday, so it counts in the week of Sunday 2025-09-14: week 37, not ISO week 38. */
  lemma MondayExample()
    ensures Weekday(739509) == 0
    ensures IsoCalendar(739509).week == 38
    ensures WeekNumber(739509) == 37
  {
    IsoExample20250915();
    IsoExample20250914();
  }

  /**
    * The ISO year is dropped: Friday 2025-09-12 and Tuesday 2026-09-08,
    * 361 days apart, both have adjusted week 37.
    */
  lemma WeekCollisionExample()
    ensures Weekday(739506) == 4 && Weekday(739867) == 1
    ensures WeekNumber(739506) == 37 && WeekNumber(739867) == 37
  {
    IsoExample20250912();
    IsoExample20260908();
  }
}
