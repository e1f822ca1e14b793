/**
 * The ISO-8601 (proleptic Gregorian) calendar that java.time uses, in UTC:
 * splitting an epoch second into year, month, day, hour, minute and second,
 * and putting the fields back together.
 *
 * Years are laid out around the epoch year 1970 by YearStart, which counts
 * the days from 1970-01-01 to the first of January of a year; every other
 * definition is stated in terms of it.
 */
module Calendar {

  const SECONDS_PER_DAY: int := 86400
  const EPOCH_YEAR: int := 1970

  /** IsoChronology.isLeapYear. */
  predicate IsLeap(y: int) {
    y % 4 == 0 && (y % 100 != 0 || y % 400 == 0)
  }

  function DaysInYear(y: int): int {
    if IsLeap(y) then 366 else 365
  }

  function DaysInMonth(y: int, m: int): int
    requires 1 <= m <= 12
  {
    if m == 2 then (if IsLeap(y) then 29 else 28)
    else if m == 4 || m == 6 || m == 9 || m == 11 then 30
    else 31
  }

  /** Days of year `y` before the first of month `m`; month 13 stands for the end of the year. */
  function DaysBeforeMonth(y: int, m: int): int
    requires 1 <= m <= 13
  {
    (if m > 2 && IsLeap(y) then 1 else 0) +
    match m
    case 1 => 0
    case 2 => 31
    case 3 => 59
    case 4 => 90
    case 5 => 120
    case 6 => 151
    case 7 => 181
    case 8 => 212
    case 9 => 243
    case 10 => 273
    case 11 => 304
    case 12 => 334
    case _ => 365
  }

  /** The epoch day (days since 1970-01-01) of the first of January of year `y`. */
  function YearStart(y: int): int
    decreases if y < EPOCH_YEAR then EPOCH_YEAR - y else y - EPOCH_YEAR
  {
    if y == EPOCH_YEAR then 0
    else if y > EPOCH_YEAR then YearStart(y - 1) + DaysInYear(y - 1)
    else YearStart(y + 1) - DaysInYear(y)
  }

  lemma YearStartStep(y: int)
    ensures YearStart(y + 1) == YearStart(y) + DaysInYear(y)
  {
  }

  lemma MonthStep(y: int, m: int)
    requires 1 <= m <= 12
    ensures DaysBeforeMonth(y, m + 1) == DaysBeforeMonth(y, m) + DaysInMonth(y, m)
  {
  }

  /** Later years start after earlier years end. */
  lemma {:induction false} YearStartGap(y1: int, y2: int)
    requires y1 < y2
    ensures YearStart(y1) + DaysInYear(y1) <= YearStart(y2)
    decreases y2 - y1
  {
    YearStartStep(y1);
    if y1 + 1 < y2 {
      YearStartGap(y1 + 1, y2);
    }
  }

  /** Later months of a year start after earlier months end. */
  lemma {:induction false} MonthGap(y: int, m1: int, m2: int)
    requires 1 <= m1 < m2 <= 13
    ensures DaysBeforeMonth(y, m1) + DaysInMonth(y, m1) <= DaysBeforeMonth(y, m2)
    decreases m2 - m1
  {
    MonthStep(y, m1);
    if m1 + 1 < m2 {
      MonthGap(y, m1 + 1, m2);
    }
  }

  /** Walks forward from the first of January of `y` by `d` days: the year reached and the day within it. */
  function YearForward(d: int, y: int): (r: (int, int))
    requires d >= 0
    ensures 0 <= r.1 < DaysInYear(r.0)
    ensures YearStart(r.0) + r.1 == YearStart(y) + d
    decreases d
  {
    YearStartStep(y);
    if d < DaysInYear(y) then (y, d) else YearForward(d - DaysInYear(y), y + 1)
  }

  /** Walks back from the first of January of `y` by `-d` days. */
  function YearBackward(d: int, y: int): (r: (int, int))
    requires d < 0
    ensures 0 <= r.1 < DaysInYear(r.0)
    ensures YearStart(r.0) + r.1 == YearStart(y) + d
    decreases -d
  {
    YearStartStep(y - 1);
    var d' := d + DaysInYear(y - 1);
    if d' >= 0 then (y - 1, d') else YearBackward(d', y - 1)
  }

  /** The year containing an epoch day, and the zero-based day of that year. */
  function YearAndDay(day: int): (r: (int, int))
    ensures 0 <= r.1 < DaysInYear(r.0)
    ensures YearStart(r.0) + r.1 == day
  {
    if day >= 0 then YearForward(day, EPOCH_YEAR) else YearBackward(day, EPOCH_YEAR)
  }

  /** The month, at `m` or later, that contains the zero-based day `doy` of year `y`. */
  function MonthFrom(doy: int, y: int, m: int): (r: int)
    requires 1 <= m <= 12
    requires DaysBeforeMonth(y, m) <= doy < DaysInYear(y)
    ensures m <= r <= 12
    ensures DaysBeforeMonth(y, r) <= doy < DaysBeforeMonth(y, r) + DaysInMonth(y, r)
    decreases 12 - m
  {
    MonthStep(y, m);
    if doy < DaysBeforeMonth(y, m) + DaysInMonth(y, m) then m else MonthFrom(doy, y, m + 1)
  }

  /** The fields of a UTC date-time, as ZonedDateTime's getters return them. */
  datatype DateTime = DateTime(year: int, month: int, day: int, hour: int, minute: int, second: int)

  /** The fields name a real second of the proleptic Gregorian calendar. */
  predicate Valid(dt: DateTime) {
    && 1 <= dt.month <= 12
    && 1 <= dt.day <= DaysInMonth(dt.year, dt.month)
    && 0 <= dt.hour < 24
    && 0 <= dt.minute < 60
    && 0 <= dt.second < 60
  }

  function EpochDay(dt: DateTime): int
    requires 1 <= dt.month <= 12
  {
    YearStart(dt.year) + DaysBeforeMonth(dt.year, dt.month) + dt.day - 1
  }

  function SecondOfDay(dt: DateTime): int {
    dt.hour * 3600 + dt.minute * 60 + dt.second
  }

  /** The epoch second a valid date-time denotes. */
  function ToEpochSecond(dt: DateTime): int
    requires Valid(dt)
  {
    EpochDay(dt) * SECONDS_PER_DAY + SecondOfDay(dt)
  }

  /**
   * Instant.atZone(UTC) followed by the field getters: the epoch day is the
   * floor of t / 86400 and the second of the day its non-negative remainder,
   * as LocalDateTime.ofEpochSecond computes them.
   */
  function FromEpochSecond(t: int): (dt: DateTime)
    ensures Valid(dt)
    ensures ToEpochSecond(dt) == t
  {
    var day := t / SECONDS_PER_DAY;
    var secondOfDay := t % SECONDS_PER_DAY;
    var (y, doy) := YearAndDay(day);
    var m := MonthFrom(doy, y, 1);
    var hour := secondOfDay / 3600;
    var rest := secondOfDay - hour * 3600;
    var minute := rest / 60;
    DateTime(y, m, doy - DaysBeforeMonth(y, m) + 1, hour, minute, rest - minute * 60)
  }

  /** Two valid date-times that denote the same second are the same. */
  lemma ToEpochSecondInjective(a: DateTime, b: DateTime)
    requires Valid(a) && Valid(b)
    requires ToEpochSecond(a) == ToEpochSecond(b)
    ensures a == b
  {
    var da, db := EpochDay(a), EpochDay(b);
    var sa, sb := SecondOfDay(a), SecondOfDay(b);
    assert 0 <= sa < SECONDS_PER_DAY && 0 <= sb < SECONDS_PER_DAY;
    assert da == db;
    assert a.hour == b.hour && a.minute == b.minute && a.second == b.second;
    MonthGap(a.year, a.month, 13);
    MonthGap(b.year, b.month, 13);
    assert a.year == b.year by {
      if a.year < b.year {
        YearStartGap(a.year, b.year);
      } else if b.year < a.year {
        YearStartGap(b.year, a.year);
      }
    }
    assert a.month == b.month by {
      if a.month < b.month {
        MonthGap(a.year, a.month, b.month);
      } else if b.month < a.month {
        MonthGap(a.year, b.month, a.month);
      }
    }
  }

  /** Splitting the second a valid date-time denotes gives back that date-time. */
  lemma FromToEpochSecond(dt: DateTime)
    requires Valid(dt)
    ensures FromEpochSecond(ToEpochSecond(dt)) == dt
  {
    ToEpochSecondInjective(FromEpochSecond(ToEpochSecond(dt)), dt);
  }
}
