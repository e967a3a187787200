/** The comparison of two datasets of one platform variable: both are cut to the selected
    period, placed on the union of their times and the intersection of their depths, and
    compared by bias and root mean square error, per record and as time-mean profiles. */
module InsituEvaluation {
  import opened Wrappers
  import opened Strings
  import opened Sorting
  import opened Series
  import opened Placement
  import Steps
  import Numerics

  // ---------------------------------------------------------------- to_seconds

  /** The fold `s = s * 60 + part` over the `:`-separated parts, from `s = acc`; a part that
      is not an integer raises `ValueError`. */
  function FoldSeconds(acc: int, parts: seq<string>): (r: Option<int>)
    decreases |parts|
  {
    if parts == [] then Some(acc)
    else
      var part := ParseInt(parts[0]);
      if part.None? then None else FoldSeconds(acc * 60 + part.value, parts[1..])
  }

  /** `to_seconds`: the loop over `time_string.split(':')`. */
  method ToSeconds(timeString: string) returns (r: Option<int>)
    ensures r == FoldSeconds(0, Split(timeString, ':'))
  {
    var parts := Split(timeString, ':');
    var seconds := 0;
    for k := 0 to |parts|
      invariant FoldSeconds(seconds, parts[k..]) == FoldSeconds(0, parts)
    {
      FoldFrom(seconds, parts, k);
      var part := ParseInt(parts[k]);
      if part.None? {
        return None;
      }
      seconds := seconds * 60 + part.value;
    }
    r := Some(seconds);
  }

  /** The fold from part `k` on takes part `k`, then goes on from part `k + 1`. */
  lemma {:induction false} FoldFrom(acc: int, parts: seq<string>, k: nat)
    requires k < |parts|
    ensures FoldSeconds(acc, parts[k..]) ==
      (var part := ParseInt(parts[k]); if part.None? then None else FoldSeconds(acc * 60 + part.value, parts[k + 1..]))
  {
    assert parts[k..][1..] == parts[k + 1..];
  }

  /** Three integer parts fold to `x * 3600 + y * 60 + z`. */
  lemma {:induction false} FoldThreeParts(a: string, b: string, c: string, x: int, y: int, z: int)
    requires ParseInt(a) == Some(x) && ParseInt(b) == Some(y) && ParseInt(c) == Some(z)
    ensures FoldSeconds(0, [a, b, c]) == Some(x * 3600 + y * 60 + z)
  {
    assert [a, b, c][1..] == [b, c] && [b, c][1..] == [c] && [c][1..] == [];
    assert FoldSeconds(x * 60 + y, [c]) == Some((x * 60 + y) * 60 + z);
    assert FoldSeconds(x, [b, c]) == FoldSeconds(x * 60 + y, [c]);
    assert (x * 60 + y) * 60 + z == x * 3600 + y * 60 + z;
  }

  /** `a:b:c` with `:`-free parts splits into the three parts. */
  lemma {:induction false} SplitThree(a: string, b: string, c: string)
    requires ':' !in a && ':' !in b && ':' !in c
    ensures Split(a + ":" + b + ":" + c, ':') == [a, b, c]
  {
    SplitNoSeparator(a, ':');
    SplitAppend(a, ':', b);
    SplitAppend(a + [':'] + b, ':', c);
  }

  /** `'hh:mm:ss'` gives `hh * 3600 + mm * 60 + ss`. */
  lemma {:induction false} ClockToSeconds(h: nat, m: nat, s: nat)
    ensures FoldSeconds(0, Split(NatToString(h) + ":" + NatToString(m) + ":" + NatToString(s), ':')) ==
      Some(h * 3600 + m * 60 + s)
  {
    NoColon(NatToString(h));
    NoColon(NatToString(m));
    NoColon(NatToString(s));
    ParseIntOfIntToString(h);
    ParseIntOfIntToString(m);
    ParseIntOfIntToString(s);
    SplitThree(NatToString(h), NatToString(m), NatToString(s));
    FoldThreeParts(NatToString(h), NatToString(m), NatToString(s), h, m, s);
  }

  lemma {:induction false} NoColon(digits: string)
    requires AllDigits(digits)
    ensures ':' !in digits
  {
  }

  // ---------------------------------------------------------------- record type

  datatype RecordType = Hourly | Daily

  /** Both datasets must have the same modal sampling time, and only an hour or a day is
      handled. */
  function EvaluationType(first: int, second: int): (r: Result<RecordType>)
    ensures r.Ok? <==> first == second && (first == 3600 || first == 86400)
    ensures r == Ok(Hourly) <==> first == second == 3600
    ensures r == Ok(Daily) <==> first == second == 86400
  {
    if first != second then Err("mixed sampling times")
    else if first == 3600 then Ok(Hourly)
    else if first == 86400 then Ok(Daily)
    else Err("only daily and hourly evaluation")
  }

  /** Half of the record type's step. */
  function HalfStep(r: RecordType): (h: int)
    ensures r == Hourly ==> h == 1800
    ensures r == Daily ==> h == 43200
  {
    match r
    case Hourly => 1800
    case Daily => 43200
  }

  /** The time bounds: every time minus and plus half a step. */
  function TimeBounds(times: seq<int>, r: RecordType): (b: seq<(int, int)>)
    ensures |b| == |times|
  {
    seq(|times|, i requires 0 <= i < |times| => (times[i] - HalfStep(r), times[i] + HalfStep(r)))
  }

  /** Each bound is a step wide and centred on its time; on a regular grid the bounds tile the
      axis. */
  lemma {:induction false} TimeBoundsTile(times: seq<int>, r: RecordType)
    ensures var b := TimeBounds(times, r);
      (forall i :: 0 <= i < |times| ==> b[i].1 - b[i].0 == 2 * HalfStep(r) && b[i].0 + b[i].1 == 2 * times[i]) &&
      forall i :: 0 <= i < |times| - 1 && times[i + 1] == times[i] + 2 * HalfStep(r) ==> b[i].1 == b[i + 1].0
  {
  }

  // ---------------------------------------------------------------- time cut

  /** The indices of the records inside the selected period; a dataset with none is skipped. */
  function CutIndices(times: seq<int>, first: Option<int>, last: Option<int>): (r: Option<seq<nat>>)
    ensures r.None? <==> forall j :: 0 <= j < |times| ==> !InCut(times[j], first, last)
  {
    var mask := CutMask(times, first, last);
    if CountTrue(mask) == 0 then None else Some(Positions(mask, [true]))
  }

  /** The cut keeps exactly the records inside the period, in their order. */
  lemma {:induction false} CutIndicesExact(times: seq<int>, first: Option<int>, last: Option<int>)
    requires CutIndices(times, first, last).Some?
    ensures var idx := CutIndices(times, first, last).value;
      (forall k :: 0 <= k < |idx| ==> idx[k] < |times| && InCut(times[idx[k]], first, last)) &&
      (forall j :: 0 <= j < |times| && InCut(times[j], first, last) ==> j in idx) &&
      forall a, b :: 0 <= a < b < |idx| ==> idx[a] < idx[b]
  {
  }

  /** The cut only names records of the dataset. */
  lemma {:induction false} CutInRange(times: seq<int>, first: Option<int>, last: Option<int>)
    requires CutIndices(times, first, last).Some?
    ensures forall k :: 0 <= k < |CutIndices(times, first, last).value| ==> CutIndices(times, first, last).value[k] < |times|
  {
    CutIndicesExact(times, first, last);
  }

  // ---------------------------------------------------------------- time and depth axes

  /** `np.union1d`: the distinct times of both datasets, increasing. */
  function Union(a: seq<int>, b: seq<int>): (r: seq<int>)
    ensures StrictlyIncreasing(r)
    ensures forall x :: x in r <==> x in a || x in b
  {
    Steps.Unique(a + b)
  }

  /** A dataset with increasing times lies on the union at the positions of its own times: the
      union read there gives its times back, one position per record. */
  lemma {:induction false} UnionPlacesDataset(a: seq<int>, b: seq<int>)
    requires StrictlyIncreasing(a)
    ensures Permute(Union(a, b), Positions(Union(a, b), a)) == a
    ensures |Positions(Union(a, b), a)| == |a|
  {
    var u := Union(a, b);
    PositionsPermute(u, a);
    FilterIncreasing(u, a);
    IncreasingSame(Filter(u, a), a);
  }

  /** The union orders the datasets' times the same way whichever is first. */
  lemma {:induction false} UnionSymmetric(a: seq<int>, b: seq<int>)
    ensures Union(a, b) == Union(b, a)
  {
    IncreasingSame(Union(a, b), Union(b, a));
  }

  /** `np.intersect1d` on times: the distinct common times, increasing. */
  function Intersection(a: seq<int>, b: seq<int>): (r: seq<int>)
    ensures StrictlyIncreasing(r)
    ensures forall x :: x in r <==> x in a && x in b
  {
    Steps.Unique(Filter(a, b))
  }

  /** `np.intersect1d` on depths: the distinct common depths, increasing. */
  function DepthIntersection(a: seq<real>, b: seq<real>): (r: seq<real>)
    ensures IncreasingReals(r)
    ensures forall x :: x in r <==> x in a && x in b
  {
    SortedDistinct(Filter(a, b))
  }

  /** Filtering keeps increasing depths increasing. */
  lemma {:induction false} FilterIncreasingReals(s: seq<real>, keep: seq<real>)
    requires IncreasingReals(s)
    ensures IncreasingReals(Filter(s, keep))
  {
    if s != [] {
      var n := |s| - 1;
      assert IncreasingReals(s[..n]);
      FilterIncreasingReals(s[..n], keep);
      var f := Filter(s[..n], keep);
      if s[n] in keep {
        assert Filter(s, keep) == f + [s[n]];
        forall i, j | 0 <= i < j < |f| + 1
          ensures (f + [s[n]])[i] < (f + [s[n]])[j]
        {
          if j == |f| {
            assert f[i] in s[..n];
            var m :| 0 <= m < n && s[..n][m] == f[i];
          }
        }
      } else {
        assert Filter(s, keep) == f;
      }
    }
  }

  lemma {:induction false} IncreasingRealsSame(a: seq<real>, b: seq<real>)
    requires IncreasingReals(a) && IncreasingReals(b)
    requires forall x :: x in a <==> x in b
    ensures a == b
    decreases |a|
  {
    if a != [] || b != [] {
      assert a != [] && b != [] by {
        if a != [] { assert a[0] in a; }
        if b != [] { assert b[0] in b; }
      }
      assert a[0] in a && b[0] in b;
      var k :| 0 <= k < |b| && b[k] == a[0];
      var m :| 0 <= m < |a| && a[m] == b[0];
      assert a[0] <= a[m] && b[0] <= b[k];
      assert IncreasingReals(a[1..]) && IncreasingReals(b[1..]);
      forall x
        ensures x in a[1..] <==> x in b[1..]
      {
        assert x in a[1..] <==> x in a && x != a[0];
        assert x in b[1..] <==> x in b && x != b[0];
      }
      IncreasingRealsSame(a[1..], b[1..]);
      assert a == [a[0]] + a[1..] && b == [b[0]] + b[1..];
    }
  }

  /** With increasing depth axes, the columns each dataset contributes are the common depths,
      in the same order: the two datasets line up depth by depth. */
  lemma {:induction false} DepthColumnsAlign(a: seq<real>, b: seq<real>)
    requires IncreasingReals(a) && IncreasingReals(b)
    ensures Permute(a, Positions(a, DepthIntersection(a, b))) == DepthIntersection(a, b)
    ensures Permute(b, Positions(b, DepthIntersection(a, b))) == DepthIntersection(a, b)
  {
    var d := DepthIntersection(a, b);
    PositionsPermute(a, d);
    FilterIncreasingReals(a, d);
    IncreasingRealsSame(Filter(a, d), d);
    PositionsPermute(b, d);
    FilterIncreasingReals(b, d);
    IncreasingRealsSame(Filter(b, d), d);
  }

  // ---------------------------------------------------------------- values

  /** The data of the selected records and common depths, placed on the output axes: rows of
      times the dataset lacks stay masked. The placement fails when the selected records and
      their positions differ in number. */
  function Placed(data: Matrix, cut: seq<nat>, depthIndex: seq<nat>, timePositions: seq<nat>, times: nat, depths: nat): (r: Result<Matrix>)
    requires forall k :: 0 <= k < |cut| ==> cut[k] < |data|
    requires forall k :: 0 <= k < |timePositions| ==> timePositions[k] < times
    requires forall i, k :: 0 <= i < |data| && 0 <= k < |depthIndex| ==> depthIndex[k] < |data[i]|
    ensures r.Ok? ==> |r.value| == times && forall i :: 0 <= i < times ==> |r.value[i]| == depths
  {
    if |cut| != |timePositions| || |depthIndex| != depths then Err("shape mismatch")
    else
      var rows := seq(|cut|, k requires 0 <= k < |cut| => Permute(data[cut[k]], depthIndex));
      AssignWidth(MaskedAll(times, depths), timePositions, rows, depths);
      Ok(Assign(MaskedAll(times, depths), timePositions, rows))
  }

  /** Each selected record lands, restricted to the common depths, at its own time position;
      every other row is masked throughout. */
  lemma {:induction false} PlacedRows(data: Matrix, cut: seq<nat>, depthIndex: seq<nat>, timePositions: seq<nat>, times: nat, depths: nat)
    requires forall k :: 0 <= k < |cut| ==> cut[k] < |data|
    requires forall k :: 0 <= k < |timePositions| ==> timePositions[k] < times
    requires forall i, k :: 0 <= i < |data| && 0 <= k < |depthIndex| ==> depthIndex[k] < |data[i]|
    requires forall a, b :: 0 <= a < b < |timePositions| ==> timePositions[a] < timePositions[b]
    requires Placed(data, cut, depthIndex, timePositions, times, depths).Ok?
    ensures var m := Placed(data, cut, depthIndex, timePositions, times, depths).value;
      forall k :: 0 <= k < |cut| ==> m[timePositions[k]] == Permute(data[cut[k]], depthIndex)
    ensures var m := Placed(data, cut, depthIndex, timePositions, times, depths).value;
      forall i, j :: 0 <= i < times && i !in timePositions && 0 <= j < depths ==> m[i][j].None?
  {
    var rows := seq(|cut|, k requires 0 <= k < |cut| => Permute(data[cut[k]], depthIndex));
    AssignPlaces(MaskedAll(times, depths), timePositions, rows);
  }

  predicate AllMasked(m: Matrix) {
    forall i, j :: 0 <= i < |m| && 0 <= j < |m[i]| ==> m[i][j].None?
  }

  /** The bias `first - second`, masked where either is. */
  function Difference(x: Option<real>, y: Option<real>): (r: Option<real>)
    ensures r.Some? <==> x.Some? && y.Some?
    ensures r.Some? ==> r.value + y.value == x.value
  {
    if x.Some? && y.Some? then Some(x.value - y.value) else None
  }

  function Bias(a: Matrix, b: Matrix): (r: Matrix)
    requires |a| == |b| && forall i :: 0 <= i < |a| ==> |a[i]| == |b[i]|
    ensures |r| == |a| && forall i :: 0 <= i < |a| ==> |r[i]| == |a[i]| && forall j :: 0 <= j < |a[i]| ==> r[i][j] == Difference(a[i][j], b[i][j])
  {
    seq(|a|, i requires 0 <= i < |a| => seq(|a[i]|, j requires 0 <= j < |a[i]| => Difference(a[i][j], b[i][j])))
  }

  /** `sqrt(|x| ** 2)`, which is `|x|`. */
  function AbsValue(x: Option<real>): (r: Option<real>)
    ensures r.Some? <==> x.Some?
    ensures r.Some? ==> r.value >= 0.0 && (r.value == x.value || r.value == -x.value)
  {
    if x.Some? then Some(Numerics.Abs(x.value)) else None
  }

  /** `|x|` of every element of a column, masked where it is. */
  function AbsAll(s: seq<Option<real>>): (r: seq<Option<real>>)
    ensures |r| == |s| && forall i :: 0 <= i < |s| ==> r[i] == AbsValue(s[i])
  {
    seq(|s|, i requires 0 <= i < |s| => AbsValue(s[i]))
  }

  function Rmse(bias: Matrix): (r: Matrix)
    ensures |r| == |bias| && forall i :: 0 <= i < |bias| ==> |r[i]| == |bias[i]| && forall j :: 0 <= j < |bias[i]| ==> r[i][j] == AbsValue(bias[i][j])
  {
    seq(|bias|, i requires 0 <= i < |bias| => AbsAll(bias[i]))
  }

  /** Column `j` over time; an element beyond a row is masked. */
  function Column(m: Matrix, j: nat): (c: seq<Option<real>>)
    ensures |c| == |m|
  {
    seq(|m|, i requires 0 <= i < |m| => if j < |m[i]| then m[i][j] else None)
  }

  /** `np.ma.mean(..., axis=0)`: the time mean of every depth column. */
  function Profile(m: Matrix, depths: nat): (p: seq<Option<real>>)
    ensures |p| == depths && forall j :: 0 <= j < depths ==> p[j] == MeanValid(Column(m, j))
  {
    seq(depths, j requires 0 <= j < depths => MeanValid(Column(m, j)))
  }

  /** The magnitude of a sum is at most the sum of the magnitudes. */
  lemma {:induction false} SumValidAbs(s: seq<Option<real>>)
    ensures Numerics.Abs(SumValid(s)) <= SumValid(AbsAll(s))
    ensures CountValid(AbsAll(s)) == CountValid(s)
  {
    if s != [] {
      var n := |s| - 1;
      SumValidAbs(s[..n]);
      assert AbsAll(s)[..n] == AbsAll(s[..n]);
    }
  }

  lemma {:induction false} DivideBound(x: real, t: real, n: real)
    requires n > 0.0 && Numerics.Abs(x) <= t
    ensures Numerics.Abs(x / n) <= t / n
  {
    if x < 0.0 {
      assert x / n < 0.0;
      assert -(x / n) == (-x) / n;
    }
  }

  /** The mean of a column is at most the mean of its magnitudes, and both are masked together. */
  lemma {:induction false} MeanAbsBound(c: seq<Option<real>>)
    ensures MeanValid(AbsAll(c)).Some? <==> MeanValid(c).Some?
    ensures MeanValid(c).Some? ==> Numerics.Abs(MeanValid(c).value) <= MeanValid(AbsAll(c)).value
  {
    SumValidAbs(c);
    if CountValid(c) > 0 {
      DivideBound(SumValid(c), SumValid(AbsAll(c)), CountValid(c) as real);
    }
  }

  lemma {:induction false} ColumnOfRmse(bias: Matrix, j: nat)
    ensures Column(Rmse(bias), j) == AbsAll(Column(bias, j))
  {
  }

  /** The bias profile never exceeds the error profile in magnitude, and both are masked at the
      same depths. */
  lemma {:induction false} BiasWithinRmse(bias: Matrix, depths: nat, j: nat)
    requires j < depths
    ensures Profile(Rmse(bias), depths)[j].Some? <==> Profile(bias, depths)[j].Some?
    ensures Profile(bias, depths)[j].Some? ==>
      Numerics.Abs(Profile(bias, depths)[j].value) <= Profile(Rmse(bias), depths)[j].value
  {
    ColumnOfRmse(bias, j);
    MeanAbsBound(Column(bias, j));
  }

  // ---------------------------------------------------------------- one comparison

  /** One dataset of the comparison: its times in the cut's units, its raw times, its depths
      and its values (time by depth). */
  datatype Dataset = Dataset(cutTimes: seq<int>, times: seq<int>, depths: seq<real>, values: Matrix)

  predicate Shaped(d: Dataset) {
    |d.cutTimes| == |d.times| == |d.values| && forall i :: 0 <= i < |d.values| ==> |d.values[i]| == |d.depths|
  }

  /** The raw times of the records inside the period. */
  function KeptTimes(d: Dataset, first: Option<int>, last: Option<int>): seq<int>
    requires Shaped(d)
  {
    var cut := CutIndices(d.cutTimes, first, last);
    if cut.None? then []
    else
      CutInRange(d.cutTimes, first, last);
      Permute(d.times, cut.value)
  }

  datatype Skip = FirstOutsidePeriod | SecondOutsidePeriod | NoCommonTime | NoCommonDepth
                | FirstAllMissing | SecondAllMissing | NoOverlap
  datatype Comparison = Comparison(time: seq<int>, depth: seq<real>, first: Matrix, second: Matrix,
                                   bias: Matrix, rmse: Matrix, biasProfile: seq<Option<real>>,
                                   rmseProfile: seq<Option<real>>, bounds: seq<(int, int)>)
  datatype Outcome = Compared(c: Comparison) | Skipped(reason: Skip) | Failed(message: string)

  /** The comparison of one variable, in the script's order of checks. The kept records keep
      their raw times: the cut is computed on the converted times but the kept values are read
      again from the variable. */
  function Compare(a: Dataset, b: Dataset, r: RecordType, first: Option<int>, last: Option<int>): (o: Outcome)
    requires Shaped(a) && Shaped(b)
    ensures o == Skipped(FirstOutsidePeriod) <==> CutIndices(a.cutTimes, first, last).None?
    ensures o == Skipped(SecondOutsidePeriod) <==> CutIndices(a.cutTimes, first, last).Some? && CutIndices(b.cutTimes, first, last).None?
    ensures o == Skipped(NoCommonTime) ==> Intersection(KeptTimes(a, first, last), KeptTimes(b, first, last)) == []
    ensures o == Skipped(NoCommonDepth) ==> DepthIntersection(a.depths, b.depths) == []
    ensures o.Compared? ==> Intersection(KeptTimes(a, first, last), KeptTimes(b, first, last)) != []
    ensures o.Compared? ==> o.c.time == Union(KeptTimes(a, first, last), KeptTimes(b, first, last))
    ensures o.Compared? ==> o.c.depth == DepthIntersection(a.depths, b.depths) && o.c.depth != []
    ensures o.Compared? ==> Computed(o.c, r)
  {
    var cutA := CutIndices(a.cutTimes, first, last);
    if cutA.None? then Skipped(FirstOutsidePeriod)
    else
      var cutB := CutIndices(b.cutTimes, first, last);
      if cutB.None? then Skipped(SecondOutsidePeriod)
      else
        CutInRange(a.cutTimes, first, last);
        CutInRange(b.cutTimes, first, last);
        CompareCut(a, b, r, cutA.value, cutB.value, KeptTimes(a, first, last), KeptTimes(b, first, last))
  }

  /** The checks on the common times and depths, once both datasets are cut. */
  function CompareCut(a: Dataset, b: Dataset, r: RecordType, cutA: seq<nat>, cutB: seq<nat>,
                      timesA: seq<int>, timesB: seq<int>): (o: Outcome)
    requires Shaped(a) && Shaped(b)
    requires forall k :: 0 <= k < |cutA| ==> cutA[k] < |a.values|
    requires forall k :: 0 <= k < |cutB| ==> cutB[k] < |b.values|
    ensures o.Skipped? ==> !o.reason.FirstOutsidePeriod? && !o.reason.SecondOutsidePeriod?
    ensures o == Skipped(NoCommonTime) <==> Intersection(timesA, timesB) == []
    ensures o == Skipped(NoCommonDepth) ==> DepthIntersection(a.depths, b.depths) == []
    ensures o.Compared? ==> Intersection(timesA, timesB) != [] && o.c.time == Union(timesA, timesB)
    ensures o.Compared? ==> o.c.depth == DepthIntersection(a.depths, b.depths) && o.c.depth != []
    ensures o.Compared? ==> Computed(o.c, r)
  {
    if Intersection(timesA, timesB) == [] then Skipped(NoCommonTime)
    else
      var depth := DepthIntersection(a.depths, b.depths);
      if depth == [] then Skipped(NoCommonDepth)
      else CompareOn(a, b, r, cutA, cutB, Union(timesA, timesB), timesA, timesB, depth)
  }

  /** The quantities of a comparison follow from its two placed datasets: the bias where both
      are present, its magnitude, their time means and the time bounds. */
  predicate Computed(c: Comparison, r: RecordType) {
    |c.first| == |c.second| == |c.time| &&
    (forall i :: 0 <= i < |c.time| ==> |c.first[i]| == |c.second[i]| == |c.depth|) &&
    c.bias == Bias(c.first, c.second) && !AllMasked(c.bias) && c.rmse == Rmse(c.bias) &&
    c.biasProfile == Profile(c.bias, |c.depth|) && c.rmseProfile == Profile(c.rmse, |c.depth|) &&
    c.bounds == TimeBounds(c.time, r)
  }

  /** Placement, masking and the statistics, once the axes are known. */
  function CompareOn(a: Dataset, b: Dataset, r: RecordType, cutA: seq<nat>, cutB: seq<nat>,
                     time: seq<int>, timesA: seq<int>, timesB: seq<int>, depth: seq<real>): (o: Outcome)
    requires Shaped(a) && Shaped(b)
    requires forall k :: 0 <= k < |cutA| ==> cutA[k] < |a.values|
    requires forall k :: 0 <= k < |cutB| ==> cutB[k] < |b.values|
    ensures o.Skipped? ==> o.reason.FirstAllMissing? || o.reason.SecondAllMissing? || o.reason.NoOverlap?
    ensures o.Compared? ==> o.c.time == time && o.c.depth == depth && Computed(o.c, r)
  {
    var placedA := Placed(a.values, cutA, Positions(a.depths, depth), Positions(time, timesA), |time|, |depth|);
    var placedB := Placed(b.values, cutB, Positions(b.depths, depth), Positions(time, timesB), |time|, |depth|);
    if placedA.Err? then Failed(placedA.reason)
    else if placedB.Err? then Failed(placedB.reason)
    else
      Statistics(MaskFillAll(placedA.value), MaskFillAll(placedB.value), r, time, depth)
  }

  /** The masking tests and the statistics of two placed datasets. */
  function Statistics(valuesA: Matrix, valuesB: Matrix, r: RecordType, time: seq<int>, depth: seq<real>): (o: Outcome)
    requires |valuesA| == |valuesB| == |time|
    requires forall i :: 0 <= i < |time| ==> |valuesA[i]| == |valuesB[i]| == |depth|
    ensures o.Skipped? ==> o.reason.FirstAllMissing? || o.reason.SecondAllMissing? || o.reason.NoOverlap?
    ensures o.Compared? ==> o.c.time == time && o.c.depth == depth && Computed(o.c, r)
  {
    if AllMasked(valuesA) then Skipped(FirstAllMissing)
    else if AllMasked(valuesB) then Skipped(SecondAllMissing)
    else
      var bias := Bias(valuesA, valuesB);
      if AllMasked(bias) then Skipped(NoOverlap)
      else
        var rmse := Rmse(bias);
        Compared(Comparison(time, depth, valuesA, valuesB, bias, rmse, Profile(bias, |depth|),
                            Profile(rmse, |depth|), TimeBounds(time, r)))
  }
}
