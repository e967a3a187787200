/** How `time_averager` reads its averaging step and checks it against the input sampling
    (SOURCE/obs_postpro/time_averager.py): the `HH:MM:SS` and month forms of the step
    argument, the tolerance rule, the rounding table used under tolerance and the left bounds
    of the output buckets, optionally shifted back by half a step. Times are whole seconds since
    1970 unless said otherwise. */
module AveragerPlan {
  import opened Wrappers
  import opened Calendar
  import opened Strings

  /** What the step argument fixes for the rest of the run: the text put in `cell_methods`,
      the calendar resolution of the buckets (`None` where the source leaves it unbound), the
      pandas frequency string, the output step in seconds and the length of the
      `pd.Timedelta` of the argument in seconds (the `HH:MM:SS` form only; 0 otherwise). */
  datatype AveragePlan = AveragePlan(caption: string, resolution: Option<Resolution>, freq: string,
                                     outStep: int, delta: int)

  /** Nothing is carried once minutes and hours are within their ranges. */
  predicate Carried(h: int, m: int) {
    m < 60 && h < 24
  }

  /** The two `while` loops of the `HH:MM:SS` form: whole hours move out of the minutes and
      whole days out of the hours. The total number of minutes is kept, and for non-negative
      fields the result is the usual day/hour/minute split. */
  method CarryUnits(hours: int, minutes: int) returns (days: int, h: int, m: int)
    ensures days * 1440 + h * 60 + m == hours * 60 + minutes
    ensures days >= 0 && Carried(h, m)
    ensures minutes < 60 ==> m == minutes
    ensures hours < 24 && minutes < 60 ==> days == 0 && h == hours
    ensures hours >= 0 && minutes >= 0 ==> (days, h, m) == DayHourMinute(hours, minutes)
  {
    days, h, m := 0, hours, minutes;
    ghost var carriedHours := 0;
    while m >= 60
      invariant m == minutes - 60 * carriedHours && h == hours + carriedHours
      invariant carriedHours >= 0 && (carriedHours > 0 ==> m >= 0)
      decreases m
    {
      h, m := h + 1, m - 60;
      carriedHours := carriedHours + 1;
    }
    if minutes >= 0 {
      DivModUnique(minutes, 60, carriedHours, m);
    }
    ghost var h0 := h;
    while h >= 24
      invariant h == h0 - 24 * days && days >= 0 && (days > 0 ==> h >= 0)
      decreases h
    {
      days, h := days + 1, h - 24;
    }
    if h0 >= 0 {
      DivModUnique(h0, 24, days, h);
    }
  }

  /** Euclidean division is unique: a quotient and a remainder in `[0, n)` are `x / n` and
      `x % n`. */
  lemma {:induction false} DivModUnique(x: int, n: int, q: int, r: int)
    requires n > 0 && 0 <= r < n && x == q * n + r
    ensures q == x / n && r == x % n
  {
    var q0, r0 := x / n, x % n;
    assert x == q0 * n + r0 && 0 <= r0 < n;
    assert (q - q0) * n == r0 - r;
    SmallMultipleIsZero(q - q0, n);
  }

  /** The only multiple of `n` strictly between `-n` and `n` is zero. */
  lemma {:induction false} SmallMultipleIsZero(k: int, n: int)
    requires n > 0 && -n < k * n < n
    ensures k == 0
  {
  }

  /** The resolution the `HH:MM:SS` form chooses: minutes if any, else hours, else days; none
      when every carried field is zero or negative. */
  function ClockResolution(days: int, h: int, m: int): (r: Option<Resolution>)
    ensures r == Some(Minute) <==> m > 0
    ensures r == Some(Hour) <==> m <= 0 && h > 0
    ensures r == Some(Day) <==> m <= 0 && h <= 0 && days > 0
    ensures r.None? <==> m <= 0 && h <= 0 && days <= 0
  {
    if m > 0 then Some(Minute) else if h > 0 then Some(Hour) else if days > 0 then Some(Day) else None
  }

  /** `out_average_str` of the `HH:MM:SS` form: one `N unit:` piece for each positive field. */
  function ClockLabel(days: int, h: int, m: int): (s: string)
    ensures s == [] <==> days <= 0 && h <= 0 && m <= 0
  {
    (if days > 0 then IntToString(days) + " days:" else "")
    + (if h > 0 then IntToString(h) + " hours:" else "")
    + (if m > 0 then IntToString(m) + " minutes:" else "")
  }

  /** `int(x)` of one field of the `HH:MM:SS` string, the missing field being Python's
      `IndexError`. */
  function Field(parts: seq<string>, k: nat): (r: Result<int>)
    ensures r.Ok? <==> k < |parts| && ParseInt(parts[k]).Some?
    ensures r.Ok? ==> r.value == ParseInt(parts[k]).value
  {
    if k >= |parts| then Err("list index out of range")
    else match ParseInt(parts[k])
      case None => Err("invalid literal for int()")
      case Some(v) => Ok(v)
  }

  /** The day/hour/minute split of a non-negative number of hours and minutes, as a formula:
      the reference the carrying loops are proved against. */
  function DayHourMinute(hours: nat, minutes: nat): (dhm: (int, int, int))
    ensures dhm.0 >= 0 && 0 <= dhm.1 < 24 && 0 <= dhm.2 < 60
    ensures dhm.0 * 1440 + dhm.1 * 60 + dhm.2 == hours * 60 + minutes
  {
    var totalHours := hours + minutes / 60;
    (totalHours / 24, totalHours % 24, minutes % 60)
  }

  /** `freq_str` of the `HH:MM:SS` form. */
  function ClockFreq(days: int, h: int, m: int): string {
    IntToString(days) + "D" + IntToString(h) + "H" + IntToString(m) + "T0S"
  }

  /** The plan of the `HH:MM:SS` form from its three integer fields. The output step is the
      carried-out time in seconds, which equals the hours and minutes given; the `pd.Timedelta`
      adds the seconds field. For non-negative fields the caption, resolution and frequency are
      those of the day/hour/minute split. */
  method ClockPlan(hours: int, minutes: int, seconds: int) returns (plan: AveragePlan)
    ensures plan.outStep == hours * 3600 + minutes * 60
    ensures plan.delta == hours * 3600 + minutes * 60 + seconds
    ensures hours >= 0 && minutes >= 0 ==>
      var dhm := DayHourMinute(hours, minutes);
      plan.resolution == ClockResolution(dhm.0, dhm.1, dhm.2) &&
      plan.caption == ClockLabel(dhm.0, dhm.1, dhm.2) &&
      plan.freq == ClockFreq(dhm.0, dhm.1, dhm.2)
    ensures hours >= 0 && minutes >= 0 ==> (plan.resolution.None? <==> hours == 0 && minutes == 0)
  {
    var days, h, m := CarryUnits(hours, minutes);
    plan := AveragePlan(ClockLabel(days, h, m), ClockResolution(days, h, m), ClockFreq(days, h, m),
                        days * 86400 + h * 3600 + m * 60, hours * 3600 + minutes * 60 + seconds);
  }

  /** The month form: `months * 30` days, yearly buckets for twelve months and month-start
      buckets otherwise; a string that is not an integer is the `ValueError` of `int()`. */
  function MonthPlan(s: string): (r: Result<AveragePlan>)
    ensures r.Ok? <==> ParseInt(s).Some?
    ensures r.Ok? ==>
      var months := ParseInt(s).value;
      r.value.outStep == months * 30 * 86400 && r.value.delta == 0 &&
      r.value.caption == s + " months" &&
      (months == 12 ==> r.value.resolution == Some(YearStart) && r.value.freq == "1AS") &&
      (months != 12 ==> r.value.resolution == Some(MonthStart) && r.value.freq == IntToString(months) + "MS")
  {
    match ParseInt(s)
    case None => Err("invalid literal for int()")
    case Some(months) =>
      if months == 12 then Ok(AveragePlan(s + " months", Some(YearStart), "1AS", months * 30 * 86400, 0))
      else Ok(AveragePlan(s + " months", Some(MonthStart), IntToString(months) + "MS", months * 30 * 86400, 0))
  }

  /** Reads the step argument. A string of three characters or more is `HH:MM:SS`: hours and
      minutes are carried, the seconds field only enters the `pd.Timedelta`. A shorter string
      is a number of months. A field that is not an integer, or a missing minutes field, is an
      error. */
  method ReadAverageStep(s: string) returns (r: Result<AveragePlan>)
    ensures |s| >= 3 ==>
      var parts := Split(s, ':');
      (r.Ok? <==> Field(parts, 0).Ok? && Field(parts, 1).Ok? && (|parts| < 3 || Field(parts, 2).Ok?))
    ensures |s| >= 3 && r.Ok? ==>
      var parts := Split(s, ':');
      var hours, minutes := Field(parts, 0).value, Field(parts, 1).value;
      var seconds := if |parts| >= 3 then Field(parts, 2).value else 0;
      r.value.outStep == hours * 3600 + minutes * 60 &&
      r.value.delta == hours * 3600 + minutes * 60 + seconds &&
      (hours >= 0 && minutes >= 0 ==>
        var dhm := DayHourMinute(hours, minutes);
        r.value.resolution == ClockResolution(dhm.0, dhm.1, dhm.2) &&
        r.value.caption == ClockLabel(dhm.0, dhm.1, dhm.2) &&
        r.value.freq == ClockFreq(dhm.0, dhm.1, dhm.2))
    ensures |s| < 3 ==> r == MonthPlan(s)
  {
    if |s| >= 3 {
      var parts := Split(s, ':');
      var hoursField, minutesField := Field(parts, 0), Field(parts, 1);
      var secondsField := if |parts| >= 3 then Field(parts, 2) else Ok(0);
      if hoursField.Err? || minutesField.Err? || secondsField.Err? {
        r := Err("the averaging step is not HH:MM:SS");
      } else {
        var plan := ClockPlan(hoursField.value, minutesField.value, secondsField.value);
        r := Ok(plan);
      }
    } else {
      r := MonthPlan(s);
    }
  }

  // ---------------------------------------------------------------- tolerance

  /** The outcome of comparing the input modal step with the output step under the 10 per cent
      tolerance: the run stops, or goes on with or without rounding the input stamps. */
  datatype ToleranceOutcome = TooCoarse | Tolerated | WithinStep

  /** The tolerance in per cent by which the input step may exceed the output step. */
  const TolerancePercent: int := 10

  /** `time_step > (1 + tol / 100) * out_time_step` stops the run; otherwise the tolerance is
      applied exactly when the input step is longer than the output step. */
  function CheckTolerance(timeStep: int, outStep: int): (t: ToleranceOutcome)
    ensures t == TooCoarse <==> 100 * timeStep > (100 + TolerancePercent) * outStep
    ensures t == Tolerated <==> outStep < timeStep && 100 * timeStep <= (100 + TolerancePercent) * outStep
    ensures t == WithinStep <==> timeStep <= outStep && 100 * timeStep <= (100 + TolerancePercent) * outStep
  {
    if 100 * timeStep > (100 + TolerancePercent) * outStep then TooCoarse
    else if TolerancePercent > 0 && timeStep > outStep then Tolerated
    else WithinStep
  }

  /** An input step no longer than the output step is always accepted, without rounding. */
  lemma {:induction false} FinerStepAccepted(timeStep: int, outStep: int)
    requires 0 <= timeStep <= outStep
    ensures CheckTolerance(timeStep, outStep) == WithinStep
  {
  }

  /** Accepting a step is monotone: a finer input step than an accepted one is accepted. */
  lemma {:induction false} ToleranceMonotone(t1: int, t2: int, outStep: int)
    requires t1 <= t2 && CheckTolerance(t2, outStep) != TooCoarse
    ensures CheckTolerance(t1, outStep) != TooCoarse
  {
  }

  // ---------------------------------------------------------------- rounding under tolerance

  /** The unit, in milliseconds, to which the input stamps are rounded when the tolerance is
      applied, chosen by the input modal step in seconds. */
  function RoundUnitMillis(timeStep: int): (u: nat)
    ensures u in {10, 100, 1000, 10000, 60000, 600000, 3600000, 36000000, 86400000}
  {
    if timeStep < 29 then 10
    else if timeStep < 60 then 100
    else if timeStep < 10 * 60 then 1000
    else if timeStep < 3600 then 10000
    else if timeStep < 10 * 3600 then 60000
    else if timeStep < 86400 then 600000
    else if timeStep < 10 * 86400 then 3600000
    else if timeStep < 31 * 86400 then 36000000
    else 86400000
  }

  /** A longer input step never gets a finer rounding unit. */
  lemma {:induction false} RoundUnitMonotone(t1: int, t2: int)
    requires t1 <= t2
    ensures RoundUnitMillis(t1) <= RoundUnitMillis(t2)
  {
  }

  /** The rounding unit is at most a tenth of the input step, so rounding moves a stamp by at
      most a twentieth of a step. */
  lemma {:induction false} RoundUnitFine(timeStep: int)
    requires timeStep >= 1
    ensures 10 * RoundUnitMillis(timeStep) <= 1000 * timeStep
  {
  }

  /** `Series.dt.round(unit)`: the nearest multiple of `unit`, ties to the even multiple. */
  function RoundToMultiple(t: int, unit: int): (r: int)
    requires unit > 0
    ensures r % unit == 0
    ensures 2 * (r - t) <= unit && 2 * (t - r) <= unit
  {
    var q, rem := t / unit, t % unit;
    var below := q * unit;
    assert t == below + rem && 0 <= rem < unit;
    MultipleMod(q, unit);
    MultipleMod(q + 1, unit);
    assert (q + 1) * unit == below + unit;
    if 2 * rem < unit || (2 * rem == unit && q % 2 == 0) then below else below + unit
  }

  lemma {:induction false} MultipleMod(k: int, unit: int)
    requires unit > 0
    ensures (k * unit) % unit == 0
  {
    DivModUnique(k * unit, unit, k, 0);
  }

  /** Rounding keeps the order of the stamps, so rounded stamps can only collide, not swap. */
  lemma {:induction false} RoundToMultipleMonotone(t1: int, t2: int, unit: int)
    requires unit > 0 && t1 <= t2
    ensures RoundToMultiple(t1, unit) <= RoundToMultiple(t2, unit)
  {
    if t1 < t2 {
      MultiplesApart(RoundToMultiple(t1, unit), RoundToMultiple(t2, unit), unit);
    }
  }

  /** Two different multiples of the unit are at least a unit apart. */
  lemma {:induction false} MultiplesApart(a: int, b: int, unit: int)
    requires unit > 0 && a % unit == 0 && b % unit == 0
    ensures a <= b || a - b >= unit
  {
    var qa, qb := a / unit, b / unit;
    assert a == qa * unit && b == qb * unit;
    ScaledGap(qa, qb, unit);
  }

  lemma {:induction false} ScaledGap(qa: int, qb: int, unit: int)
    requires unit > 0
    ensures qa * unit <= qb * unit || qa * unit - qb * unit >= unit
  {
    if qa > qb {
      var k := qa - qb - 1;
      assert k * unit >= 0;
      assert qa * unit - qb * unit == k * unit + unit;
    } else {
      assert (qb - qa) * unit >= 0;
      assert qb * unit - qa * unit == (qb - qa) * unit;
    }
  }

  /** A multiple of the unit is left where it is. */
  lemma {:induction false} RoundToMultipleOfMultiple(t: int, unit: int)
    requires unit > 0 && t % unit == 0
    ensures RoundToMultiple(t, unit) == t
  {
  }

  // ---------------------------------------------------------------- bucket bounds

  /** The first left bound: `round_down` of a stamp, moved back by `out_time_step // 2` when the
      half-step shift is asked for. */
  function BucketStart(first: DateTime, r: Resolution, outStep: int, halfShift: bool): (s: int)
    requires Valid(first)
    ensures halfShift ==> s == EpochSeconds(RoundDown(first, r)) - outStep / 2
    ensures !halfShift ==> s == EpochSeconds(RoundDown(first, r))
    ensures outStep >= 0 ==> s <= EpochSeconds(first)
  {
    RoundDownNotAfter(first, r);
    EpochSecondsMonotoneOrEqual(RoundDown(first, r), first);
    EpochSeconds(RoundDown(first, r)) - (if halfShift then outStep / 2 else 0)
  }

  lemma {:induction false} EpochSecondsMonotoneOrEqual(x: DateTime, y: DateTime)
    requires Valid(x) && Valid(y) && NotAfter(x, y)
    ensures EpochSeconds(x) <= EpochSeconds(y)
  {
    if x != y {
      EpochSecondsMonotone(x, y);
    }
  }

  /** `pd.date_range(start, end, freq)` for a fixed step: `start`, `start + step`, ... up to and
      including the last one not after `end`. */
  function LeftBounds(start: int, end: int, step: int): (b: seq<int>)
    requires step > 0
    ensures start <= end <==> b != []
    ensures b != [] ==> b[0] == start && b[|b| - 1] <= end < b[|b| - 1] + step
    ensures forall j :: 0 <= j < |b| ==> b[j] == start + j * step
    decreases end - start
  {
    if start > end then [] else [start] + LeftBounds(start + step, end, step)
  }

  /** The output stamp of each bucket: its left bound plus half the `pd.Timedelta`. */
  function MidPoints(left: seq<int>, delta: int): (t: seq<real>)
    ensures |t| == |left| && forall j :: 0 <= j < |left| ==> t[j] == left[j] as real + delta as real / 2.0
  {
    seq(|left|, j requires 0 <= j < |left| => left[j] as real + delta as real / 2.0)
  }

  /** The right bound of each bucket: its output stamp plus half the `pd.Timedelta`. */
  function RightBounds(left: seq<int>, delta: int): (t: seq<real>)
    ensures |t| == |left|
  {
    var mid := MidPoints(left, delta);
    seq(|left|, j requires 0 <= j < |left| => mid[j] + delta as real / 2.0)
  }

  /** Each bucket ends where the next one starts. */
  predicate Contiguous(left: seq<int>, delta: int) {
    forall j :: 0 <= j < |left| - 1 ==> RightBounds(left, delta)[j] == left[j + 1] as real
  }

  /** The buckets are contiguous, each right bound being the next left bound, exactly when the
      seconds field of the step adds nothing to the `pd.Timedelta`. */
  lemma {:induction false} BoundsContiguous(start: int, end: int, plan: AveragePlan)
    requires plan.outStep > 0 && start + plan.outStep <= end
    ensures Contiguous(LeftBounds(start, end, plan.outStep), plan.delta) <==> plan.delta == plan.outStep
  {
    var left := LeftBounds(start, end, plan.outStep);
    assert |left| >= 2;
    EvenlySpacedContiguous(left, plan.outStep, plan.delta);
  }

  /** Left bounds a step apart, with buckets as long as `delta`, touch exactly when `delta`
      is the step. */
  lemma {:induction false} EvenlySpacedContiguous(left: seq<int>, step: int, delta: int)
    requires |left| >= 2 && forall j :: 0 <= j < |left| - 1 ==> left[j + 1] == left[j] + step
    ensures Contiguous(left, delta) <==> delta == step
  {
    var right := RightBounds(left, delta);
    forall j | 0 <= j < |left|
      ensures right[j] == left[j] as real + delta as real
    {
    }
    assert right[0] == left[1] as real <==> delta == step;
  }
}
