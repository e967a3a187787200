/** Proleptic Gregorian date-times as `datetime.datetime` holds them, the truncation and
    increment of `round_down` / `round_up` (SOURCE/obs_postpro/time_averager.py) and the
    conversion to seconds since 1970-01-01 that pandas' `asi8` performs. */
module Calendar {

  datatype DateTime = DateTime(year: int, month: int, day: int, hour: int, minute: int, second: int)

  /** The pandas offset aliases the averager rounds to: 'AS', 'MS', 'D', 'H', 'T' and 'S'. */
  datatype Resolution = YearStart | MonthStart | Day | Hour | Minute | Second

  predicate IsLeap(y: int) {
    y % 4 == 0 && (y % 100 != 0 || y % 400 == 0)
  }

  function DaysInMonth(y: int, m: int): (n: int)
    requires 1 <= m <= 12
    ensures 28 <= n <= 31
  {
    if m == 2 then (if IsLeap(y) then 29 else 28)
    else if m == 4 || m == 6 || m == 9 || m == 11 then 30
    else 31
  }

  predicate Valid(x: DateTime) {
    1 <= x.month <= 12 && 1 <= x.day <= DaysInMonth(x.year, x.month) &&
    0 <= x.hour < 24 && 0 <= x.minute < 60 && 0 <= x.second < 60
  }

  /** `a` is on an earlier calendar day than `b`. */
  predicate DateBefore(a: DateTime, b: DateTime) {
    a.year < b.year ||
    (a.year == b.year && (a.month < b.month || (a.month == b.month && a.day < b.day)))
  }

  predicate SameDate(a: DateTime, b: DateTime) {
    a.year == b.year && a.month == b.month && a.day == b.day
  }

  /** Chronological order of date-times: day first, then time of day. */
  predicate Before(a: DateTime, b: DateTime) {
    DateBefore(a, b) ||
    (SameDate(a, b) &&
     (a.hour < b.hour || (a.hour == b.hour && (a.minute < b.minute || (a.minute == b.minute && a.second < b.second)))))
  }

  predicate NotAfter(a: DateTime, b: DateTime) {
    a == b || Before(a, b)
  }

  /** Every field finer than the resolution is at its smallest value. */
  predicate Aligned(x: DateTime, r: Resolution) {
    (r != Second ==> x.second == 0) &&
    (r != Second && r != Minute ==> x.minute == 0) &&
    (r == YearStart || r == MonthStart || r == Day ==> x.hour == 0) &&
    (r == YearStart || r == MonthStart ==> x.day == 1) &&
    (r == YearStart ==> x.month == 1)
  }

  /** `round_down`: the start of the year, month, day, hour, minute or second holding `x`. */
  function RoundDown(x: DateTime, r: Resolution): (y: DateTime)
    ensures Valid(x) ==> Valid(y)
    ensures Aligned(y, r)
  {
    match r
    case YearStart => DateTime(x.year, 1, 1, 0, 0, 0)
    case MonthStart => DateTime(x.year, x.month, 1, 0, 0, 0)
    case Day => DateTime(x.year, x.month, x.day, 0, 0, 0)
    case Hour => DateTime(x.year, x.month, x.day, x.hour, 0, 0)
    case Minute => DateTime(x.year, x.month, x.day, x.hour, x.minute, 0)
    case Second => x
  }

  /** The truncation lies at or before the instant it truncates. */
  lemma {:induction false} RoundDownNotAfter(x: DateTime, r: Resolution)
    requires Valid(x)
    ensures NotAfter(RoundDown(x, r), x)
  {
  }

  /** An aligned instant is its own truncation, so truncating twice changes nothing. */
  lemma {:induction false} RoundDownOfAligned(x: DateTime, r: Resolution)
    requires Aligned(x, r)
    ensures RoundDown(x, r) == x
  {
  }

  lemma {:induction false} RoundDownIdempotent(x: DateTime, r: Resolution)
    ensures RoundDown(RoundDown(x, r), r) == RoundDown(x, r)
  {
    RoundDownOfAligned(RoundDown(x, r), r);
  }

  /** The truncation is the latest aligned instant not after `x`. */
  lemma {:induction false} RoundDownGreatest(x: DateTime, z: DateTime, r: Resolution)
    requires Valid(x) && Aligned(z, r) && NotAfter(z, x)
    ensures NotAfter(z, RoundDown(x, r))
  {
  }

  /** One year later, for the first of January. */
  function NextYear(x: DateTime): (r: DateTime)
    requires Valid(x) && x.month == 1 && x.day == 1
    ensures Valid(r) && x.year < r.year
    ensures r.month == 1 && r.day == 1 && r.hour == x.hour && r.minute == x.minute && r.second == x.second
  {
    x.(year := x.year + 1)
  }

  /** One month later, for the first of a month (`relativedelta(months=1)`). */
  function NextMonth(x: DateTime): (r: DateTime)
    requires Valid(x) && x.day == 1
    ensures Valid(r) && (x.year < r.year || (x.year == r.year && x.month < r.month))
    ensures r.day == 1 && r.hour == x.hour && r.minute == x.minute && r.second == x.second
  {
    if x.month < 12 then x.(month := x.month + 1) else NextYear(x.(month := 1))
  }

  /** The next calendar day at the same time of day. */
  function NextDay(x: DateTime): (r: DateTime)
    requires Valid(x)
    ensures Valid(r) && DateBefore(x, r)
    ensures r.hour == x.hour && r.minute == x.minute && r.second == x.second
  {
    if x.day < DaysInMonth(x.year, x.month) then x.(day := x.day + 1) else NextMonth(x.(day := 1))
  }

  function NextHour(x: DateTime): (r: DateTime)
    requires Valid(x)
    ensures Valid(r) && (DateBefore(x, r) || (SameDate(x, r) && x.hour < r.hour))
    ensures r.minute == x.minute && r.second == x.second
  {
    if x.hour < 23 then x.(hour := x.hour + 1) else NextDay(x.(hour := 0))
  }

  function NextMinute(x: DateTime): (r: DateTime)
    requires Valid(x)
    ensures Valid(r)
    ensures DateBefore(x, r) || (SameDate(x, r) && (x.hour < r.hour || (x.hour == r.hour && x.minute < r.minute)))
    ensures r.second == x.second
  {
    if x.minute < 59 then x.(minute := x.minute + 1) else NextHour(x.(minute := 0))
  }

  function NextSecond(x: DateTime): (r: DateTime)
    requires Valid(x)
    ensures Valid(r) && Before(x, r)
  {
    if x.second < 59 then x.(second := x.second + 1) else NextMinute(x.(second := 0))
  }

  /** One unit of the resolution later. */
  function AddUnit(x: DateTime, r: Resolution): (y: DateTime)
    requires Valid(x) && Aligned(x, r)
    ensures Valid(y) && Aligned(y, r) && Before(x, y)
  {
    match r
    case YearStart => NextYear(x)
    case MonthStart => NextMonth(x)
    case Day => NextDay(x)
    case Hour => NextHour(x)
    case Minute => NextMinute(x)
    case Second => NextSecond(x)
  }

  /** `round_up`: the end of the year, month, day, hour, minute or second holding `x`. */
  function RoundUp(x: DateTime, r: Resolution): (y: DateTime)
    requires Valid(x)
    ensures Valid(y) && Aligned(y, r)
  {
    AddUnit(RoundDown(x, r), r)
  }

  /** `round_down(x) <= x < round_up(x)`. */
  lemma {:induction false} RoundUpAfter(x: DateTime, r: Resolution)
    requires Valid(x)
    ensures NotAfter(RoundDown(x, r), x) && Before(x, RoundUp(x, r))
  {
    RoundDownNotAfter(x, r);
  }

  /** The end of the unit holding `x` is later than `x` in seconds too. */
  lemma {:induction false} RoundUpLater(x: DateTime, r: Resolution)
    requires Valid(x)
    ensures EpochSeconds(x) < EpochSeconds(RoundUp(x, r))
  {
    RoundUpAfter(x, r);
    EpochSecondsMonotone(x, RoundUp(x, r));
  }

  function YearDays(y: int): int {
    if IsLeap(y) then 366 else 365
  }

  /** The twelve months fill the year exactly. */
  lemma {:induction false} MonthsFillYear(y: int)
    ensures DaysBeforeMonth(y, 13) == YearDays(y)
  {
    var l := if IsLeap(y) then 1 else 0;
    assert DaysBeforeMonth(y, 2) == 31;
    assert DaysBeforeMonth(y, 3) == 59 + l;
    assert DaysBeforeMonth(y, 4) == 90 + l;
    assert DaysBeforeMonth(y, 5) == 120 + l;
    assert DaysBeforeMonth(y, 6) == 151 + l;
    assert DaysBeforeMonth(y, 7) == 181 + l;
    assert DaysBeforeMonth(y, 8) == 212 + l;
    assert DaysBeforeMonth(y, 9) == 243 + l;
    assert DaysBeforeMonth(y, 10) == 273 + l;
    assert DaysBeforeMonth(y, 11) == 304 + l;
    assert DaysBeforeMonth(y, 12) == 334 + l;
  }

  /** Days of year `y` before the first of month `m` (`m == 13` gives the whole year). */
  function DaysBeforeMonth(y: int, m: int): (n: int)
    requires 1 <= m <= 13
    ensures n >= 0
  {
    if m == 1 then 0 else DaysBeforeMonth(y, m - 1) + DaysInMonth(y, m - 1)
  }

  /** Days from 1970-01-01 to the first of January of `y` (negative before 1970). */
  function DaysBeforeYear(y: int): int
    decreases if y >= 1970 then y - 1970 else 1970 - y
  {
    if y == 1970 then 0
    else if y > 1970 then DaysBeforeYear(y - 1) + YearDays(y - 1)
    else DaysBeforeYear(y + 1) - YearDays(y)
  }

  /** Days from 1970-01-01 to the date of `x`. */
  function DayNumber(x: DateTime): int
    requires Valid(x)
  {
    DaysBeforeYear(x.year) + DaysBeforeMonth(x.year, x.month) + x.day - 1
  }

  function TimeOfDay(x: DateTime): (s: int)
    requires Valid(x)
    ensures 0 <= s < 86400
  {
    x.hour * 3600 + x.minute * 60 + x.second
  }

  /** Seconds since 1970-01-01T00:00:00 (pandas' `asi8`, in seconds). */
  function EpochSeconds(x: DateTime): int
    requires Valid(x)
  {
    DayNumber(x) * 86400 + TimeOfDay(x)
  }

  lemma {:induction false} DaysBeforeNextYear(y: int)
    ensures DaysBeforeYear(y + 1) == DaysBeforeYear(y) + YearDays(y)
  {
  }

  lemma {:induction false} DaysBeforeYearMonotone(y1: int, y2: int)
    requires y1 < y2
    ensures DaysBeforeYear(y1) + YearDays(y1) <= DaysBeforeYear(y2)
    decreases y2 - y1
  {
    DaysBeforeNextYear(y1);
    if y1 + 1 < y2 {
      DaysBeforeYearMonotone(y1 + 1, y2);
    }
  }

  lemma {:induction false} DaysBeforeMonthMonotone(y: int, m1: int, m2: int)
    requires 1 <= m1 < m2 <= 13
    ensures DaysBeforeMonth(y, m1) + DaysInMonth(y, m1) <= DaysBeforeMonth(y, m2)
    decreases m2 - m1
  {
    if m1 + 1 < m2 {
      DaysBeforeMonthMonotone(y, m1 + 1, m2);
    }
  }

  /** An earlier calendar day has a smaller day number. */
  lemma {:induction false} DayNumberMonotone(a: DateTime, b: DateTime)
    requires Valid(a) && Valid(b) && DateBefore(a, b)
    ensures DayNumber(a) < DayNumber(b)
  {
    if a.year < b.year {
      MonthsFillYear(a.year);
      DaysBeforeMonthMonotone(a.year, a.month, 13);
      DaysBeforeYearMonotone(a.year, b.year);
    } else if a.month < b.month {
      DaysBeforeMonthMonotone(a.year, a.month, b.month);
    }
  }

  /** The conversion to seconds preserves chronological order. */
  lemma {:induction false} EpochSecondsMonotone(a: DateTime, b: DateTime)
    requires Valid(a) && Valid(b) && Before(a, b)
    ensures EpochSeconds(a) < EpochSeconds(b)
  {
    if DateBefore(a, b) {
      DayNumberMonotone(a, b);
    }
  }

  /** The following calendar day starts 86400 s later. */
  lemma {:induction false} NextDaySeconds(x: DateTime)
    requires Valid(x)
    ensures EpochSeconds(NextDay(x)) == EpochSeconds(x) + 86400
  {
    if x.day == DaysInMonth(x.year, x.month) {
      if x.month == 12 {
        DaysBeforeNextYear(x.year);
        MonthsFillYear(x.year);
        assert DaysBeforeMonth(x.year, 13) == DaysBeforeMonth(x.year, 12) + 31;
      }
    }
  }

  /** The length in seconds of the fixed-length resolutions. */
  function UnitSeconds(r: Resolution): (n: int)
    requires r != YearStart && r != MonthStart
    ensures n > 0
  {
    match r
    case Day => 86400
    case Hour => 3600
    case Minute => 60
    case Second => 1
  }

  /** For days, hours, minutes and seconds, `round_up(x) - round_down(x)` is exactly one unit
      of seconds, carries across days, months and years included. */
  lemma {:induction false} AddUnitSeconds(x: DateTime, r: Resolution)
    requires Valid(x) && Aligned(x, r) && r != YearStart && r != MonthStart
    ensures EpochSeconds(AddUnit(x, r)) == EpochSeconds(x) + UnitSeconds(r)
  {
    match r
    case Day => NextDaySeconds(x);
    case Hour => NextHourSeconds(x);
    case Minute => NextMinuteSeconds(x);
    case Second => NextSecondSeconds(x);
  }

  lemma {:induction false} NextHourSeconds(x: DateTime)
    requires Valid(x)
    ensures EpochSeconds(NextHour(x)) == EpochSeconds(x) + 3600
  {
    if x.hour == 23 {
      NextDaySeconds(x.(hour := 0));
    }
  }

  lemma {:induction false} NextMinuteSeconds(x: DateTime)
    requires Valid(x)
    ensures EpochSeconds(NextMinute(x)) == EpochSeconds(x) + 60
  {
    if x.minute == 59 {
      NextHourSeconds(x.(minute := 0));
    }
  }

  lemma {:induction false} NextSecondSeconds(x: DateTime)
    requires Valid(x)
    ensures EpochSeconds(NextSecond(x)) == EpochSeconds(x) + 1
  {
    if x.second == 59 {
      NextMinuteSeconds(x.(second := 0));
    }
  }
}
