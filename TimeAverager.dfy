/** `time_averager`: time-weighted averages of an oversampled series over calendar buckets
    (SOURCE/obs_postpro/time_averager.py). Time stamps are `Calendar.DateTime` values or whole
    seconds since 1970; values are masked reals, `None` standing for NaN. */
module TimeAverager {
  import opened Wrappers
  import opened Sorting
  import opened Steps
  import opened Calendar
  import opened Strings
  import Series

  // ---------------------------------------------------------------- weighted average

  /** Seconds since 1970 of every stamp of the index. */
  function Stamps(index: seq<DateTime>): (t: seq<int>)
    requires forall j :: 0 <= j < |index| ==> Valid(index[j])
    ensures |t| == |index| && forall j :: 0 <= j < |index| ==> t[j] == EpochSeconds(index[j])
  {
    seq(|index|, j requires 0 <= j < |index| => EpochSeconds(index[j]))
  }

  /** Sum of the weights of the unmasked entries. */
  function ValidWeight(w: seq<int>, v: seq<Option<real>>): int
    requires |w| == |v|
  {
    if w == [] then 0
    else (if v[|v| - 1].Some? then w[|w| - 1] else 0) + ValidWeight(w[..|w| - 1], v[..|v| - 1])
  }

  /** Weighted sum of the unmasked entries. */
  function WeightedSum(w: seq<int>, v: seq<Option<real>>): real
    requires |w| == |v|
  {
    if w == [] then 0.0
    else
      var last := if v[|v| - 1].Some? then w[|w| - 1] as real * v[|v| - 1].value else 0.0;
      last + WeightedSum(w[..|w| - 1], v[..|v| - 1])
  }

  /** The weight of each entry of a bucket: the time to the next stamp, and for the last entry
      the time to `round_up` of its stamp. */
  function BucketWeights(index: seq<DateTime>, r: Resolution): (w: seq<int>)
    requires index != [] && forall j :: 0 <= j < |index| ==> Valid(index[j])
    ensures |w| == |index|
  {
    Diffs(Stamps(index) + [EpochSeconds(RoundUp(index[|index| - 1], r))])
  }

  /** `np.average` of the unmasked entries with weights `w`; NaN (`None`) when every entry is
      masked, an error when their weights sum to zero. */
  function WeightedAverage(w: seq<int>, values: seq<Option<real>>): (a: Result<Option<real>>)
    requires |w| == |values|
    ensures a.Ok? && a.value.None? <==> forall j :: 0 <= j < |values| ==> values[j].None?
  {
    if Series.CountValid(values) == 0 then Ok(None)
    else if ValidWeight(w, values) == 0 then Err("Weights sum to zero, can't be normalized")
    else Ok(Some(WeightedSum(w, values) / ValidWeight(w, values) as real))
  }

  /** `time_weighted_average` over one bucket; an empty bucket gives NaN (`None`). */
  function TimeWeightedAverage(index: seq<DateTime>, values: seq<Option<real>>, r: Resolution): (a: Result<Option<real>>)
    requires |index| == |values| && forall j :: 0 <= j < |index| ==> Valid(index[j])
    ensures index == [] ==> a == Ok(None)
    ensures (forall j :: 0 <= j < |values| ==> values[j].None?) ==> a == Ok(None)
  {
    if index == [] then Ok(None) else WeightedAverage(BucketWeights(index, r), values)
  }

  /** The stamps of the index are in strictly increasing chronological order. */
  predicate Chronological(index: seq<DateTime>) {
    forall j :: 0 <= j < |index| - 1 ==> Before(index[j], index[j + 1])
  }

  /** A chronological index has strictly increasing stamps. */
  lemma {:induction false} StampsIncrease(index: seq<DateTime>)
    requires forall j :: 0 <= j < |index| ==> Valid(index[j])
    requires Chronological(index)
    ensures forall j :: 0 <= j < |index| - 1 ==> Stamps(index)[j] < Stamps(index)[j + 1]
  {
    forall j | 0 <= j < |index| - 1 ensures EpochSeconds(index[j]) < EpochSeconds(index[j + 1]) {
      EpochSecondsMonotone(index[j], index[j + 1]);
    }
  }

  /** On a chronological index every weight is positive, the last one included. */
  lemma {:induction false} WeightsPositive(index: seq<DateTime>, r: Resolution)
    requires index != [] && forall j :: 0 <= j < |index| ==> Valid(index[j])
    requires Chronological(index)
    ensures forall j :: 0 <= j < |index| ==> BucketWeights(index, r)[j] > 0
  {
    var last := index[|index| - 1];
    RoundUpLater(last, r);
    StampsIncrease(index);
    GapsPositive(Stamps(index), EpochSeconds(RoundUp(last, r)));
  }

  /** A strictly increasing series followed by a later end has positive gaps. */
  lemma {:induction false} GapsPositive(s: seq<int>, e: int)
    requires s != [] && s[|s| - 1] < e
    requires forall j :: 0 <= j < |s| - 1 ==> s[j] < s[j + 1]
    ensures forall j :: 0 <= j < |s| ==> Diffs(s + [e])[j] > 0
  {
    var t := s + [e];
    forall j | 0 <= j < |s| ensures t[j + 1] - t[j] > 0 {
      if j < |s| - 1 {
        assert t[j] == s[j] && t[j + 1] == s[j + 1];
      }
    }
  }

  lemma {:induction false} ValidWeightPositive(w: seq<int>, v: seq<Option<real>>)
    requires |w| == |v| && forall j :: 0 <= j < |w| ==> w[j] > 0
    ensures ValidWeight(w, v) >= 0
    ensures (exists j :: 0 <= j < |v| && v[j].Some?) ==> ValidWeight(w, v) > 0
  {
    if w != [] {
      var wi, vi := w[..|w| - 1], v[..|v| - 1];
      assert forall j :: 0 <= j < |wi| ==> wi[j] == w[j];
      ValidWeightPositive(wi, vi);
      if exists j :: 0 <= j < |v| && v[j].Some? {
        var j :| 0 <= j < |v| && v[j].Some?;
        if j < |vi| {
          assert vi[j] == v[j];
        }
      }
    }
  }

  /** When every unmasked entry is `c`, the weighted sum is `c` times the valid weight. */
  lemma {:induction false} WeightedSumConstant(w: seq<int>, v: seq<Option<real>>, c: real)
    requires |w| == |v| && forall j :: 0 <= j < |v| ==> v[j].None? || v[j].value == c
    ensures WeightedSum(w, v) == ValidWeight(w, v) as real * c
  {
    if w != [] {
      var wi, vi := w[..|w| - 1], v[..|v| - 1];
      assert forall j :: 0 <= j < |vi| ==> vi[j] == v[j];
      WeightedSumConstant(wi, vi, c);
      var n := ValidWeight(wi, vi);
      if v[|v| - 1].Some? {
        AddTimes(w[|w| - 1], n, c);
      }
    }
  }

  lemma {:induction false} AddTimes(a: int, n: int, c: real)
    ensures (a + n) as real * c == a as real * c + n as real * c
  {
  }

  /** With positive weights, unmasked entries that all equal `c` average to `c`. */
  lemma {:induction false} WeightedAverageConstant(w: seq<int>, values: seq<Option<real>>, c: real)
    requires |w| == |values| && forall j :: 0 <= j < |w| ==> w[j] > 0
    requires forall j :: 0 <= j < |values| ==> values[j].None? || values[j].value == c
    requires exists j :: 0 <= j < |values| && values[j].Some?
    ensures WeightedAverage(w, values) == Ok(Some(c))
  {
    ValidWeightPositive(w, values);
    WeightedSumConstant(w, values, c);
    var n := ValidWeight(w, values) as real;
    var j :| 0 <= j < |values| && values[j].Some?;
    assert Series.CountValid(values) != 0;
    Series.DivideProduct(n, c);
    assert WeightedSum(w, values) == n * c;
    assert WeightedAverage(w, values) == Ok(Some(WeightedSum(w, values) / n));
  }

  /** A chronological bucket whose unmasked values all equal `c` averages to `c`. */
  lemma {:induction false} TimeWeightedAverageConstant(index: seq<DateTime>, values: seq<Option<real>>, r: Resolution, c: real)
    requires |index| == |values| && forall j :: 0 <= j < |index| ==> Valid(index[j])
    requires Chronological(index)
    requires forall j :: 0 <= j < |values| ==> values[j].None? || values[j].value == c
    requires exists j :: 0 <= j < |values| && values[j].Some?
    ensures TimeWeightedAverage(index, values, r) == Ok(Some(c))
  {
    WeightsPositive(index, r);
    WeightedAverageConstant(BucketWeights(index, r), values, c);
  }

  /** With positive weights `np.average` never raises. */
  lemma {:induction false} WeightedAverageDefined(w: seq<int>, values: seq<Option<real>>)
    requires |w| == |values| && forall j :: 0 <= j < |w| ==> w[j] > 0
    ensures WeightedAverage(w, values).Ok?
  {
    ValidWeightPositive(w, values);
    if Series.CountValid(values) != 0 {
      var j :| 0 <= j < |values| && values[j].Some?;
    }
  }

  /** A chronological bucket never makes `np.average` raise, and its average is NaN exactly
      when every entry is masked. */
  lemma {:induction false} TimeWeightedAverageDefined(index: seq<DateTime>, values: seq<Option<real>>, r: Resolution)
    requires |index| == |values| && forall j :: 0 <= j < |index| ==> Valid(index[j])
    requires Chronological(index)
    ensures TimeWeightedAverage(index, values, r).Ok?
    ensures TimeWeightedAverage(index, values, r).value.None? <==> forall j :: 0 <= j < |values| ==> values[j].None?
  {
    if index != [] {
      WeightsPositive(index, r);
      WeightedAverageDefined(BucketWeights(index, r), values);
    }
  }
}
