/** The quality-check engine of the time-series post-processing. A variable is held as one
    series per depth level, in record order, with a calendar month per record. Iteration 0
    is the gross check (range check, spike test, stuck-value test); every later iteration is
    a statistical check that rejects improbable samples in well-observed months. Each
    iteration copies the previous good data and flags and rejects the union of its tests:
    rejected samples are masked in the good data and flagged 4, and nothing ever returns to
    good. */
module TimeSeriesQC {
  import opened Wrappers
  import opened Series
  import Strings
  import SpikeTest
  import StuckTest
  import opened QcIterations

  const ProbabilityThreshold: real := 0.05
  const DeltaX: real := 0.1
  const MinimumDays: real := 15.0
  const DaySeconds: real := 86400.0
  const Salinity: string := "sea_water_practical_salinity"
  const Temperature: string := "sea_water_temperature"

  // The range check.

  /** The range check limits of a variable; other variables are not range checked. */
  function RangeLimits(name: string): (r: Option<(real, real)>)
    ensures name == Salinity ==> r == Some((5.0, 41.0))
    ensures name == Temperature ==> r == Some((4.0, 32.0))
    ensures r.Some? <==> name == Salinity || name == Temperature
  {
    if name == Salinity then Some((5.0, 41.0))
    else if name == Temperature then Some((4.0, 32.0))
    else None
  }

  /** The samples out of range, masked samples being filled with the minimum first. */
  function RangeMask(x: seq<Option<real>>, limits: Option<(real, real)>): (r: seq<bool>)
    ensures |r| == |x|
  {
    seq(|x|, t requires 0 <= t < |x| =>
      limits.Some? &&
      var filled := if x[t].Some? then x[t].value else limits.value.0;
      filled < limits.value.0 || filled > limits.value.1)
  }

  /** The range check rejects exactly the unmasked samples strictly below the minimum or
      strictly above the maximum, and nothing for a variable without limits. */
  lemma {:induction false} RangeMaskIff(x: seq<Option<real>>, name: string, t: nat)
    requires t < |x|
    ensures var l := RangeLimits(name);
      RangeMask(x, l)[t] <==> l.Some? && x[t].Some? && (x[t].value < l.value.0 || x[t].value > l.value.1)
  {
    var l := RangeLimits(name);
    if l.Some? {
      assert l.value.0 < l.value.1;
    }
  }

  // Masks.

  /** `np.ma.array(x, mask=m)`: the samples of `x` with those under `m` masked as well. */
  function MaskWhere(x: seq<Option<real>>, m: seq<bool>): (r: seq<Option<real>>)
    requires |m| == |x|
    ensures |r| == |x| && forall t :: 0 <= t < |x| ==> r[t] == (if m[t] then None else x[t])
  {
    seq(|x|, t requires 0 <= t < |x| => if m[t] then None else x[t])
  }

  // The gross check.

  /** The ISPRA rule as the code evaluates it: the substring test `'ISPRA' in institution`
      runs on `None` when the dataset has no institution attribute, which raises. */
  function IspraRuleAsWritten(institution: Option<string>, name: string): (r: Result<bool>)
    ensures institution.None? ==> r.Err?
    ensures institution.Some? ==> r == Ok(IspraRule(institution, name))
  {
    if institution.None? then Err("argument of type 'NoneType' is not iterable")
    else Ok(Strings.Contains(institution.value, "ISPRA") && name == Temperature)
  }

  /** Any series without an institution stops the run with an error, whatever its
      variable: the substring test runs before the variable name is compared. */
  lemma {:induction false} NoInstitutionFails(name: string)
    ensures IspraRuleAsWritten(None, name).Err?
    ensures IspraRuleAsWritten(None, name) != Ok(IspraRule(None, name))
  {
  }

  /** The ISPRA rule with a missing institution read as not ISPRA: the 20.0 rule applies to
      temperature from an institution whose name holds "ISPRA". */
  function IspraRule(institution: Option<string>, name: string): (r: bool)
    ensures r <==> institution.Some? && Strings.IsSubstring("ISPRA", institution.value) && name == Temperature
  {
    if institution.Some? then
      Strings.ContainsIsSubstring(institution.value, "ISPRA");
      Strings.Contains(institution.value, "ISPRA") && name == Temperature
    else false
  }

  /** Which tests of the gross check the run enables. */
  datatype Toggles = Toggles(range: bool, spike: bool, stuck: bool)

  /** The limits the range check runs with (`range_check_authorized`): none when the check
      is disabled or the variable has no limits. */
  function CheckLimits(name: string, on: Toggles): (r: Option<(real, real)>)
    ensures r.Some? <==> on.range && RangeLimits(name).Some?
    ensures r.Some? ==> r == RangeLimits(name)
  {
    if on.range then RangeLimits(name) else None
  }

  /** A mask that rejects nothing. */
  function NoRejections(n: nat): (r: seq<bool>)
    ensures |r| == n && forall t :: 0 <= t < n ==> !r[t]
  {
    seq(n, _ => false)
  }

  /** The samples rejected by any of three masks of one level. */
  function Union(a: seq<bool>, b: seq<bool>, c: seq<bool>): (r: seq<bool>)
    requires |b| == |a| && |c| == |a|
    ensures |r| == |a| && forall t :: 0 <= t < |a| ==> r[t] == (a[t] || b[t] || c[t])
  {
    seq(|a|, t requires 0 <= t < |a| => a[t] || b[t] || c[t])
  }

  /** The range check of a level. */
  function RangeRejections(x: seq<Option<real>>, name: string, on: Toggles): (r: seq<bool>)
    ensures |r| == |x|
  {
    RangeMask(x, CheckLimits(name, on))
  }

  /** The spike test of a level, run on the samples the range check kept. */
  function SpikeRejections(x: seq<Option<real>>, name: string, on: Toggles): (r: seq<bool>)
    ensures |r| == |x|
  {
    if on.spike then SpikeTest.Spikes(MaskWhere(x, RangeRejections(x, name, on))) else NoRejections(|x|)
  }

  /** The stuck-value test of a level, run on the raw values of the level. */
  function StuckRejections(x: seq<Option<real>>, on: Toggles, ispra: bool): (r: seq<bool>)
    ensures |r| == |x|
  {
    if on.stuck then StuckTest.StuckMask(x, ispra) else NoRejections(|x|)
  }

  /** The gross check of one level: the union of its enabled tests. */
  function GrossLevel(x: seq<Option<real>>, name: string, on: Toggles, ispra: bool): (r: seq<bool>)
    ensures |r| == |x|
  {
    Union(RangeRejections(x, name, on), SpikeRejections(x, name, on), StuckRejections(x, on, ispra))
  }

  /** Each test of the gross check rejects only unmasked samples. */
  lemma {:induction false} GrossTestsRejectPresent(x: seq<Option<real>>, name: string, on: Toggles, ispra: bool, t: nat)
    requires t < |x|
    ensures RangeRejections(x, name, on)[t] ==> x[t].Some?
    ensures SpikeRejections(x, name, on)[t] ==> x[t].Some?
    ensures StuckRejections(x, on, ispra)[t] ==> x[t].Some?
  {
    var range := RangeRejections(x, name, on);
    if on.range {
      RangeMaskIff(x, name, t);
    }
    if on.spike && SpikeRejections(x, name, on)[t] {
      SpikeTest.SpikeNeedsSixNeighbours(MaskWhere(x, range), t);
    }
    if on.stuck && StuckRejections(x, on, ispra)[t] {
      StuckTest.StuckNeedsCount(x, ispra, t);
    }
  }

  /** The gross check rejects only unmasked samples, each for one of its enabled tests; a
      sample rejected by the range check is out of the variable's limits. */
  lemma {:induction false} GrossRejectsPresent(x: seq<Option<real>>, name: string, on: Toggles, ispra: bool, t: nat)
    requires t < |x| && GrossLevel(x, name, on, ispra)[t]
    ensures x[t].Some?
    ensures (on.range && RangeLimits(name).Some? && RangeMask(x, RangeLimits(name))[t]) ||
            (on.spike && SpikeTest.Spikes(MaskWhere(x, RangeRejections(x, name, on)))[t]) ||
            (on.stuck && StuckTest.StuckMask(x, ispra)[t])
  {
    GrossTestsRejectPresent(x, name, on, ispra, t);
  }

  /** With every test disabled the gross check rejects nothing. */
  lemma {:induction false} GrossDisabled(x: seq<Option<real>>, name: string, ispra: bool, t: nat)
    requires t < |x|
    ensures !GrossLevel(x, name, Toggles(false, false, false), ispra)[t]
  {
  }

  /** The gross check of every level: the range check and the spike test over the whole
      array, then the stuck-value test level by level. */
  method GrossCheck(good: Levels, name: string, on: Toggles, ispra: bool) returns (rejected: seq<seq<bool>>)
    ensures |rejected| == |good|
    ensures forall d :: 0 <= d < |good| ==> rejected[d] == GrossLevel(good[d], name, on, ispra)
  {
    var limits := CheckLimits(name, on);
    var range := seq(|good|, d requires 0 <= d < |good| => RangeMask(good[d], limits));
    var spikes, stuck;
    if on.spike {
      var checked := seq(|good|, d requires 0 <= d < |good| => MaskWhere(good[d], range[d]));
      spikes := SpikeCheck(checked);
    } else {
      spikes := seq(|good|, d requires 0 <= d < |good| => NoRejections(|good[d]|));
    }
    if on.stuck {
      stuck := StuckCheck(good, ispra);
    } else {
      stuck := seq(|good|, d requires 0 <= d < |good| => NoRejections(|good[d]|));
    }
    rejected := seq(|good|, d requires 0 <= d < |good| => Union(range[d], spikes[d], stuck[d]));
  }

  /** The spike test of every level. */
  method SpikeCheck(levels: Levels) returns (spikes: seq<seq<bool>>)
    ensures |spikes| == |levels|
    ensures forall d :: 0 <= d < |levels| ==> spikes[d] == SpikeTest.Spikes(levels[d])
  {
    spikes := [];
    for depth := 0 to |levels|
      invariant |spikes| == depth
      invariant forall d :: 0 <= d < depth ==> spikes[d] == SpikeTest.Spikes(levels[d])
    {
      var level := SpikeTest.SpikeLevel(levels[depth]);
      spikes := spikes + [level];
    }
  }

  /** The stuck-value test level by level, into a mask set to false beforehand. */
  method StuckCheck(good: Levels, ispra: bool) returns (stuck: seq<seq<bool>>)
    ensures |stuck| == |good|
    ensures forall d :: 0 <= d < |good| ==> stuck[d] == StuckTest.StuckMask(good[d], ispra)
  {
    stuck := seq(|good|, d requires 0 <= d < |good| => seq(|good[d]|, _ => false));
    for depth := 0 to |good|
      invariant |stuck| == |good|
      invariant forall d :: 0 <= d < depth ==> stuck[d] == StuckTest.StuckMask(good[d], ispra)
    {
      var level := StuckTest.StuckLevel(good[depth], ispra);
      stuck := stuck[depth := level];
    }
  }

  // The statistical check.

  function MonthMask(months: seq<int>, m: int): (r: seq<bool>)
    ensures |r| == |months| && forall t :: 0 <= t < |months| ==> r[t] == (months[t] == m)
  {
    seq(|months|, t requires 0 <= t < |months| => months[t] == m)
  }

  /** The number of unmasked samples of the level in calendar month `m`. */
  function MonthCount(x: seq<Option<real>>, months: seq<int>, m: int): (n: nat)
    requires |months| == |x|
  {
    CountValid(Select(x, MonthMask(months, m)))
  }

  /** A month of the level holds at least 15 days' worth of valid samples. */
  predicate Evidence(x: seq<Option<real>>, months: seq<int>, m: int, sampling: int)
    requires |months| == |x|
  {
    (MonthCount(x, months, m) * sampling) as real / DaySeconds >= MinimumDays
  }

  predicate MonthsValid(months: seq<int>) {
    forall t :: 0 <= t < |months| ==> 1 <= months[t] <= 12
  }

  /** The samples whose month holds enough evidence (the `high_data_mask` of a level):
      starting from all true, every insufficient month is cleared, month by month. */
  method EvidenceMask(x: seq<Option<real>>, months: seq<int>, sampling: int) returns (high: seq<bool>)
    requires |months| == |x| && MonthsValid(months)
    ensures |high| == |x|
    ensures forall t :: 0 <= t < |x| ==> high[t] == Evidence(x, months, months[t], sampling)
  {
    high := seq(|x|, _ => true);
    for month := 1 to 13
      invariant |high| == |x|
      invariant forall t :: 0 <= t < |x| ==> high[t] == (months[t] >= month || Evidence(x, months, months[t], sampling))
    {
      if !Evidence(x, months, month, sampling) {
        high := seq(|x|, t requires 0 <= t < |x| => if months[t] == month then false else high[t]);
      }
    }
  }

  /** The density the check reads for a sample: a masked sample keeps the fill value
      through the climatology and trend subtractions, which falls outside the density grid,
      so its density is masked. */
  function DensityOf(v: Option<real>, density: Option<real>): (r: Option<real>)
    ensures r.Some? <==> v.Some? && density.Some?
  {
    if v.Some? then density else None
  }

  /** The statistical check of a level: a sample whose density is unmasked and below
      0.05 × 0.1, in a month with enough evidence. */
  function StatLevel(x: seq<Option<real>>, density: seq<Option<real>>, months: seq<int>, sampling: int): (r: seq<bool>)
    requires |density| == |x| && |months| == |x|
    ensures |r| == |x|
  {
    seq(|x|, t requires 0 <= t < |x| =>
      var p := DensityOf(x[t], density[t]);
      p.Some? && p.value < ProbabilityThreshold * DeltaX && Evidence(x, months, months[t], sampling))
  }

  /** The statistical check of every level. */
  method StatCheck(good: Levels, density: Levels, months: seq<int>, sampling: int) returns (rejected: seq<seq<bool>>)
    requires |density| == |good| && MonthsValid(months)
    requires forall d :: 0 <= d < |good| ==> |good[d]| == |months| && |density[d]| == |months|
    ensures |rejected| == |good|
    ensures forall d :: 0 <= d < |good| ==> rejected[d] == StatLevel(good[d], density[d], months, sampling)
  {
    rejected := [];
    for depth := 0 to |good|
      invariant |rejected| == depth
      invariant forall d :: 0 <= d < depth ==> rejected[d] == StatLevel(good[d], density[d], months, sampling)
    {
      var level := StatCheckLevel(good[depth], density[depth], months, sampling);
      rejected := rejected + [level];
    }
  }

  /** The statistical check of one level. */
  method StatCheckLevel(x: seq<Option<real>>, density: seq<Option<real>>, months: seq<int>, sampling: int) returns (level: seq<bool>)
    requires |density| == |x| && |months| == |x| && MonthsValid(months)
    ensures level == StatLevel(x, density, months, sampling)
  {
    var high := EvidenceMask(x, months, sampling);
    level := seq(|x|, t requires 0 <= t < |x| =>
      var p := DensityOf(x[t], density[t]);
      p.Some? && p.value < ProbabilityThreshold * DeltaX && high[t]);
  }

  /** The statistical check rejects a sample only when its density is unmasked and below
      0.005 and its month holds 15 days of valid samples; in particular never in a month
      whose records, valid or not, span less than 15 days. */
  lemma {:induction false} StatNeedsEvidence(x: seq<Option<real>>, density: seq<Option<real>>, months: seq<int>, sampling: int, t: nat)
    requires |density| == |x| && |months| == |x| && t < |x|
    requires StatLevel(x, density, months, sampling)[t]
    ensures x[t].Some? && density[t].Some? && density[t].value < 0.005
    ensures sampling > 0
    ensures (CountTrue(MonthMask(months, months[t])) * sampling) as real >= MinimumDays * DaySeconds
  {
    var mask := MonthMask(months, months[t]);
    var n := MonthCount(x, months, months[t]);
    SelectSize(x, mask);
    assert n <= CountTrue(mask);
    var e := (n * sampling) as real;
    assert e / DaySeconds >= MinimumDays;
    DivideAtLeast(e, DaySeconds, MinimumDays);
    ScaleAtMost(n, CountTrue(mask), sampling);
  }

  lemma {:induction false} DivideAtLeast(e: real, d: real, m: real)
    requires d > 0.0 && e / d >= m
    ensures e >= m * d
  {
    assert e == (e / d) * d;
  }

  /** `a * c <= b * c` for `a <= b`, and `c` is positive when `a * c` is. */
  lemma {:induction false} ScaleAtMost(a: nat, b: nat, c: int)
    requires a <= b && (a * c) as real >= MinimumDays * DaySeconds
    ensures c > 0 && (b * c) as real >= MinimumDays * DaySeconds
  {
    if c <= 0 {
      assert false;
    }
    assert a * c <= b * c;
  }

  // The iterations.

  /** What the engine is given: the data, the calendar month of every record, the most
      representative sampling time in seconds, the variable's standard name, the dataset's
      institution attribute, and for each statistical iteration the density of every sample
      (masked where the residual falls outside the density grid). */
  datatype Input = Input(data: Levels, months: seq<int>, sampling: int, name: string,
                         institution: Option<string>, tests: Toggles, densities: seq<Levels>)

  predicate Shaped(ls: Levels, n: nat) {
    forall d :: 0 <= d < |ls| ==> |ls[d]| == n
  }

  predicate WellFormed(i: Input) {
    MonthsValid(i.months) && Shaped(i.data, |i.months|) &&
    forall k :: 0 <= k < |i.densities| ==> |i.densities[k]| == |i.data| && Shaped(i.densities[k], |i.months|)
  }

  /** The gross check of every level of the original data, which iteration 0 runs on. */
  function GrossRejections(i: Input): (r: seq<seq<bool>>)
    ensures |r| == |i.data| && forall d :: 0 <= d < |i.data| ==> |r[d]| == |i.data[d]|
  {
    seq(|i.data|, d requires 0 <= d < |i.data| => GrossLevel(i.data[d], i.name, i.tests, IspraRule(i.institution, i.name)))
  }

  /** Level `d` of the gross rejections is the gross check of level `d` of the data. */
  lemma {:induction false} GrossRejectionsAt(i: Input)
    ensures forall d :: 0 <= d < |i.data| ==>
      GrossRejections(i)[d] == GrossLevel(i.data[d], i.name, i.tests, IspraRule(i.institution, i.name))
  {
  }

  /** The masks `m` cut, or padded with false, to the shape of `g`. */
  function Fit(m: seq<seq<bool>>, g: Levels): (r: seq<seq<bool>>)
    ensures |r| == |g| && forall d :: 0 <= d < |g| ==> |r[d]| == |g[d]|
    ensures forall d, t :: 0 <= d < |g| && 0 <= t < |g[d]| ==> r[d][t] == (d < |m| && t < |m[d]| && m[d][t])
  {
    seq(|g|, d requires 0 <= d < |g| =>
      seq(|g[d]|, t requires 0 <= t < |g[d]| => d < |m| && t < |m[d]| && m[d][t]))
  }

  /** Masks of the shape of `g` are left as they are. */
  lemma {:induction false} FitShaped(m: seq<seq<bool>>, g: Levels)
    requires |m| == |g| && forall d :: 0 <= d < |g| ==> |m[d]| == |g[d]|
    ensures Fit(m, g) == m
  {
    var f := Fit(m, g);
    forall d | 0 <= d < |g|
      ensures f[d] == m[d]
    {
      assert forall t :: 0 <= t < |g[d]| ==> f[d][t] == m[d][t];
    }
  }

  /** The statistical check of iteration `j + 1` at depth `d`, with that iteration's
      densities. A level whose densities or months do not match it in length, which no
      well-formed input has, rejects nothing. */
  function StatLevelOf(i: Input, j: nat, d: nat, x: seq<Option<real>>): (r: seq<bool>)
    ensures |r| == |x|
  {
    if StatShaped(i, j, d, x) then StatLevel(x, i.densities[j][d], i.months, i.sampling)
    else seq(|x|, _ => false)
  }

  predicate StatShaped(i: Input, j: nat, d: nat, x: seq<Option<real>>) {
    j < |i.densities| && d < |i.densities[j]| && |i.densities[j][d]| == |x| && |i.months| == |x|
  }

  /** The rejections of iteration `k` on the good data it starts from: the gross check of
      the original data at iteration 0, the statistical check after it. */
  function Rejections(i: Input, k: nat, good: Levels): (r: seq<seq<bool>>)
    ensures |r| == |good| && forall d :: 0 <= d < |good| ==> |r[d]| == |good[d]|
  {
    if k == 0 then Fit(GrossRejections(i), good)
    else seq(|good|, d requires 0 <= d < |good| => StatLevelOf(i, k - 1, d, good[d]))
  }

  /** The tests of the iterations of a run. */
  function IterationTests(i: Input): (tests: Tests)
    ensures ShapePreserving(tests)
  {
    (k: nat, g: Levels) => Rejections(i, k, g)
  }

  /** The good data and the flags before the first iteration and after each iteration. */
  datatype History = History(good: seq<Levels>, flags: seq<Flags>)

  /** Every sample is masked: the engine stops without output. */
  predicate AllMissing(data: Levels) {
    forall d, t :: 0 <= d < |data| && 0 <= t < |data[d]| ==> data[d][t].None?
  }

  /** The iteration loop: iteration 0 runs the gross check and each of the
      `|i.densities|` later iterations a statistical check, each appending the new good data
      and flags to the history. Data that is all missing ends the run without output
      (`Ok(None)`); otherwise a dataset without an institution attribute raises at the ISPRA
      test, before any iteration. */
  method QualityCheck(i: Input) returns (r: Result<Option<History>>)
    requires WellFormed(i)
    ensures r == Ok(None) <==> AllMissing(i.data)
    ensures r.Err? <==> !AllMissing(i.data) && IspraRuleAsWritten(i.institution, i.name).Err?
    ensures r.Err? <==> !AllMissing(i.data) && i.institution.None?
    ensures r.Ok? && r.value.Some? ==> r.value.value.good == GoodHistory(i.data, IterationTests(i), |i.densities| + 1)
    ensures r.Ok? && r.value.Some? ==> r.value.value.flags == FlagHistory(i.data, IterationTests(i), |i.densities| + 1)
  {
    if AllMissing(i.data) {
      return Ok(None);
    }
    var ispra := IspraRuleAsWritten(i.institution, i.name);
    if ispra.Err? {
      return Err(ispra.reason);
    }
    var goods := [i.data];
    var flags := [InitialFlags(i.data)];
    var iteration := 0;
    while iteration <= |i.densities|
      invariant iteration <= |i.densities| + 1
      invariant goods == GoodHistory(i.data, IterationTests(i), iteration) && flags == FlagHistory(i.data, IterationTests(i), iteration)
    {
      goods, flags := Advance(i, iteration, goods, flags);
      iteration := iteration + 1;
    }
    r := Ok(Some(History(goods, flags)));
  }

  /** Iteration `k` run on the last good data and flags of the history, its results
      appended. */
  method Advance(i: Input, k: nat, goods: seq<Levels>, flags: seq<Flags>) returns (goods': seq<Levels>, flags': seq<Flags>)
    requires WellFormed(i) && k <= |i.densities|
    requires goods == GoodHistory(i.data, IterationTests(i), k) && flags == FlagHistory(i.data, IterationTests(i), k)
    ensures goods' == GoodHistory(i.data, IterationTests(i), k + 1) && flags' == FlagHistory(i.data, IterationTests(i), k + 1)
  {
    HistoryAt(i.data, IterationTests(i), k, k);
    var good, flag := Iterate(i, k, goods[k], flags[k]);
    goods' := goods + [good];
    flags' := flags + [flag];
  }

  /** One iteration: the tests of iteration `k`, then the good data and the flags with that
      iteration's rejections applied. */
  method Iterate(i: Input, k: nat, good: Levels, flags: Flags) returns (nextGood: Levels, nextFlags: Flags)
    requires WellFormed(i) && k <= |i.densities|
    requires good == GoodAfter(i.data, IterationTests(i), k) && flags == FlagsAfter(i.data, IterationTests(i), k)
    ensures var rejected := IterationTests(i)(k, good);
      nextGood == NextGoodAll(good, rejected) && nextFlags == NextFlagsAll(flags, rejected)
    ensures nextGood == GoodAfter(i.data, IterationTests(i), k + 1) && nextFlags == FlagsAfter(i.data, IterationTests(i), k + 1)
  {
    var rejected;
    if k == 0 {
      rejected := GrossCheck(good, i.name, i.tests, IspraRule(i.institution, i.name));
      GrossRejectionsAt(i);
      assert rejected == GrossRejections(i);
      FitShaped(rejected, good);
    } else {
      rejected := StatCheck(good, i.densities[k - 1], i.months, i.sampling);
      assert forall d :: 0 <= d < |good| ==> rejected[d] == StatLevelOf(i, k - 1, d, good[d]);
    }
    assert rejected == Rejections(i, k, good);
    nextGood := NextGoodAll(good, rejected);
    nextFlags := NextFlagsAll(flags, rejected);
  }

  /** The gross check flags every sample it rejects with 4 and masks it, for the rest of
      the run. */
  lemma {:induction false} GrossRejectedFlagged(i: Input, k: nat, d: nat, t: nat)
    requires 1 <= k && d < |i.data| && t < |i.data[d]| && GrossRejections(i)[d][t]
    ensures FlagsAfter(i.data, IterationTests(i), k)[d][t] == BadFlag && GoodAfter(i.data, IterationTests(i), k)[d][t].None?
  {
    assert IterationTests(i)(0, i.data) == Fit(GrossRejections(i), i.data);
    RejectedStaysFlagged(i.data, IterationTests(i), 0, k, d, t);
  }

  /** A sample the statistical check of iteration `j` rejects is flagged 4 and masked from
      then on. */
  lemma {:induction false} StatRejectedFlagged(i: Input, j: nat, k: nat, d: nat, t: nat)
    requires WellFormed(i) && 1 <= j < k && j <= |i.densities| && d < |i.data| && t < |i.months|
    requires StatLevel(GoodAfter(i.data, IterationTests(i), j)[d], i.densities[j - 1][d], i.months, i.sampling)[t]
    ensures FlagsAfter(i.data, IterationTests(i), k)[d][t] == BadFlag && GoodAfter(i.data, IterationTests(i), k)[d][t].None?
  {
    var g := GoodAfter(i.data, IterationTests(i), j);
    assert StatShaped(i, j - 1, d, g[d]);
    assert IterationTests(i)(j, g)[d] == StatLevelOf(i, j - 1, d, g[d]);
    RejectedStaysFlagged(i.data, IterationTests(i), j, k, d, t);
  }

  /** The flags after iteration 0, which are all a run without statistical iterations
      produces: 4 exactly for the samples missing at the start and those the gross check
      rejects, 1 for all others. */
  lemma {:induction false} GrossOnlyFlags(i: Input, d: nat, t: nat)
    requires d < |i.data| && t < |i.data[d]|
    ensures FlagsAfter(i.data, IterationTests(i), 1)[d][t] ==
      (if i.data[d][t].None? || GrossRejections(i)[d][t] then BadFlag else GoodFlag)
  {
    StepMonotone(i.data, IterationTests(i), 0, d, t);
    assert IterationTests(i)(0, i.data) == Fit(GrossRejections(i), i.data);
  }

  // The rejection statistics.

  /** The counters of a run (`out_stat`): all samples, missing samples, the samples each
      enabled gross test rejects (absent for a disabled test), and the samples each
      statistical iteration rejects. */
  datatype Stats = Stats(total: nat, filled: nat, range: Option<nat>, spike: Option<nat>,
                         stuck: Option<nat>, statistic: seq<nat>)

  /** The number of samples of all levels. */
  function Size(ls: Levels): nat {
    if ls == [] then 0 else |ls[0]| + Size(ls[1..])
  }

  /** The number of unmasked samples of all levels. */
  function ValidCount(ls: Levels): (n: nat)
    ensures n <= Size(ls)
  {
    if ls == [] then 0 else CountValid(ls[0]) + ValidCount(ls[1..])
  }

  /** The number of rejected samples of all levels. */
  function Rejected(ms: seq<seq<bool>>): nat {
    if ms == [] then 0 else CountTrue(ms[0]) + Rejected(ms[1..])
  }

  /** The masks of one gross test over every level of the data: 0 the range check, 1 the
      spike test, 2 the stuck-value test. */
  function GrossTestMasks(i: Input, test: nat): (r: seq<seq<bool>>)
    ensures |r| == |i.data| && forall d :: 0 <= d < |i.data| ==> |r[d]| == |i.data[d]|
  {
    var data := i.data;
    seq(|data|, d requires 0 <= d < |data| =>
      if test == 0 then RangeRejections(data[d], i.name, i.tests)
      else if test == 1 then SpikeRejections(data[d], i.name, i.tests)
      else StuckRejections(data[d], i.tests, IspraRule(i.institution, i.name)))
  }

  /** The rejections of statistical iteration `j + 1`, on the good data it starts from. */
  function StatisticMasks(i: Input, j: nat): (r: seq<seq<bool>>)
  {
    Rejections(i, j + 1, GoodAfter(i.data, IterationTests(i), j + 1))
  }

  /** The counters of a run with `|i.densities|` statistical iterations. */
  function Statistics(i: Input): (s: Stats)
    ensures |s.statistic| == |i.densities|
    ensures s.range.Some? <==> i.tests.range && RangeLimits(i.name).Some?
    ensures s.spike.Some? <==> i.tests.spike
    ensures s.stuck.Some? <==> i.tests.stuck
    ensures s.filled + ValidCount(i.data) == s.total
  {
    Stats(Size(i.data), Size(i.data) - ValidCount(i.data),
      if CheckLimits(i.name, i.tests).Some? then Some(Rejected(GrossTestMasks(i, 0))) else None,
      if i.tests.spike then Some(Rejected(GrossTestMasks(i, 1))) else None,
      if i.tests.stuck then Some(Rejected(GrossTestMasks(i, 2))) else None,
      seq(|i.densities|, j requires 0 <= j < |i.densities| => Rejected(StatisticMasks(i, j))))
  }

  /** A mask that rejects only unmasked samples rejects at most the unmasked ones. */
  lemma {:induction false} RejectedAtMostValid(ms: seq<seq<bool>>, ls: Levels)
    requires |ms| == |ls| && forall d :: 0 <= d < |ls| ==> |ms[d]| == |ls[d]|
    requires forall d, t :: 0 <= d < |ls| && 0 <= t < |ls[d]| && ms[d][t] ==> ls[d][t].Some?
    ensures Rejected(ms) <= ValidCount(ls)
  {
    if ms != [] {
      LevelAtMostValid(ms[0], ls[0]);
      assert forall d :: 0 <= d < |ls| - 1 ==> ms[1..][d] == ms[d + 1] && ls[1..][d] == ls[d + 1];
      RejectedAtMostValid(ms[1..], ls[1..]);
    }
  }

  lemma {:induction false} LevelAtMostValid(m: seq<bool>, x: seq<Option<real>>)
    requires |m| == |x| && forall t :: 0 <= t < |x| && m[t] ==> x[t].Some?
    ensures CountTrue(m) <= CountValid(x)
  {
    if m != [] {
      var n := |m| - 1;
      assert forall t :: 0 <= t < n ==> m[..n][t] == m[t] && x[..n][t] == x[t];
      LevelAtMostValid(m[..n], x[..n]);
    }
  }

  /** No counter exceeds the number of samples it could reject: each gross test counts at
      most the samples present at the start, and each statistical iteration at most the
      samples still good when it starts. */
  lemma {:induction false} StatisticsBounds(i: Input)
    ensures var s := Statistics(i);
      s.filled <= s.total &&
      (s.range.Some? ==> s.range.value <= s.total - s.filled) &&
      (s.spike.Some? ==> s.spike.value <= s.total - s.filled) &&
      (s.stuck.Some? ==> s.stuck.value <= s.total - s.filled) &&
      forall j :: 0 <= j < |s.statistic| ==> s.statistic[j] <= ValidCount(GoodAfter(i.data, IterationTests(i), j + 1))
  {
    GrossCountsBounded(i, 0);
    GrossCountsBounded(i, 1);
    GrossCountsBounded(i, 2);
    forall j | 0 <= j < |i.densities|
      ensures Rejected(StatisticMasks(i, j)) <= ValidCount(GoodAfter(i.data, IterationTests(i), j + 1))
    {
      StatisticCountBounded(i, j);
    }
  }

  lemma {:induction false} GrossCountsBounded(i: Input, test: nat)
    ensures Rejected(GrossTestMasks(i, test)) <= ValidCount(i.data)
  {
    var data: Levels := i.data;
    var m := GrossTestMasks(i, test);
    forall d, t | 0 <= d < |data| && 0 <= t < |data[d]|
      ensures m[d][t] ==> data[d][t].Some?
    {
      GrossTestsRejectPresent(data[d], i.name, i.tests, IspraRule(i.institution, i.name), t);
    }
    RejectedAtMostValid(m, data);
  }

  lemma {:induction false} StatisticCountBounded(i: Input, j: nat)
    ensures Rejected(StatisticMasks(i, j)) <= ValidCount(GoodAfter(i.data, IterationTests(i), j + 1))
  {
    var g: Levels := GoodAfter(i.data, IterationTests(i), j + 1);
    var m := StatisticMasks(i, j);
    forall d, t | 0 <= d < |g| && 0 <= t < |g[d]|
      ensures m[d][t] ==> g[d][t].Some?
    {
      assert m[d] == StatLevelOf(i, j, d, g[d]);
    }
    RejectedAtMostValid(m, g);
  }

  // The time rounding.

  /** The resolution the time axis is rounded to for a sampling time in seconds: its
      pandas frequency alias and its length in milliseconds. */
  datatype Resolution = Resolution(alias: string, millis: nat)

  function RoundFrequency(sampling: int): (r: Resolution)
  {
    if sampling < 29 then Resolution("10ms", 10)
    else if sampling < 60 then Resolution("100ms", 100)
    else if sampling < 10 * 60 then Resolution("s", 1000)
    else if sampling < 3600 then Resolution("10s", 10000)
    else if sampling < 10 * 3600 then Resolution("min", 60000)
    else if sampling < 86400 then Resolution("10min", 600000)
    else if sampling < 10 * 86400 then Resolution("H", 3600000)
    else if sampling < 31 * 86400 then Resolution("10H", 36000000)
    else Resolution("D", 86400000)
  }

  /** The rounding resolution is at least ten times finer than the sampling time, and
      grows with it. */
  lemma {:induction false} RoundFrequencyFiner(a: int, b: int)
    requires 1 <= a <= b
    ensures 10 * RoundFrequency(a).millis <= 1000 * a
    ensures RoundFrequency(a).millis <= RoundFrequency(b).millis
  {
  }

  // The monthly climatology.

  /** The mean of the good samples of a level in calendar month `m`, masked when there is
      none. */
  function MonthlyMean(x: seq<Option<real>>, months: seq<int>, m: int): (r: Option<real>)
    requires |months| == |x|
  {
    MeanValid(Select(x, MonthMask(months, m)))
  }

  /** The monthly mean is present exactly when the month holds a good sample, and equals
      the common value when all of them agree. */
  lemma {:induction false} MonthlyMeanFacts(x: seq<Option<real>>, months: seq<int>, m: int, c: real)
    requires |months| == |x|
    ensures MonthlyMean(x, months, m).Some? <==> exists t :: 0 <= t < |x| && months[t] == m && x[t].Some?
    ensures ((forall t :: 0 <= t < |x| && months[t] == m && x[t].Some? ==> x[t].value == c) &&
             (exists t :: 0 <= t < |x| && months[t] == m && x[t].Some?)) ==> MonthlyMean(x, months, m) == Some(c)
  {
    var mask := MonthMask(months, m);
    var s := Select(x, mask);
    SelectMembers(x, mask);
    if exists t :: 0 <= t < |x| && months[t] == m && x[t].Some? {
      var t :| 0 <= t < |x| && months[t] == m && x[t].Some?;
      assert x[t] in s;
      var j :| 0 <= j < |s| && s[j] == x[t];
      if forall u :: 0 <= u < |x| && months[u] == m && x[u].Some? ==> x[u].value == c {
        forall j' | 0 <= j' < |s|
          ensures s[j'].None? || s[j'].value == c
        {
          assert s[j'] in s;
        }
        MeanValidConstant(s, c);
      }
    } else {
      forall j | 0 <= j < |s|
        ensures s[j].None?
      {
        assert s[j] in s;
      }
    }
  }

  /** The monthly climatology of the good data (12 months by depth): a month without
      records stays masked, the others hold the monthly means. */
  method MonthlyClimatology(good: Levels, months: seq<int>) returns (table: seq<seq<Option<real>>>)
    requires Shaped(good, |months|)
    ensures |table| == 12
    ensures forall m :: 0 <= m < 12 ==>
      |table[m]| == |good| && forall d :: 0 <= d < |good| ==> table[m][d] == MonthlyMean(good[d], months, m + 1)
  {
    table := [];
    for month := 0 to 12
      invariant |table| == month
      invariant forall m :: 0 <= m < month ==>
        |table[m]| == |good| && forall d :: 0 <= d < |good| ==> table[m][d] == MonthlyMean(good[d], months, m + 1)
    {
      var row: seq<Option<real>>;
      if exists t :: 0 <= t < |months| && months[t] == month + 1 {
        row := seq(|good|, d requires 0 <= d < |good| => MonthlyMean(good[d], months, month + 1));
      } else {
        row := seq(|good|, _ => None);
        forall d | 0 <= d < |good|
          ensures row[d] == MonthlyMean(good[d], months, month + 1)
        {
          MonthlyMeanFacts(good[d], months, month + 1, 0.0);
        }
      }
      table := table + [row];
    }
  }
}
