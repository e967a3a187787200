/** `records_monotonicity_fixer`: reorders the records of a file by time, applying one sort
    permutation to every time-dimensioned variable (SOURCE/records_monotonicity_fixer.py). */
module MonotonicityFixer {
  import opened Wrappers
  import opened Sorting
  import opened Steps
  import opened Records

  /** `np.all(np.diff(time) > 0)`. */
  predicate AllStepsPositive(t: seq<int>) {
    forall j :: 0 <= j < |Diffs(t)| ==> Diffs(t)[j] > 0
  }

  /** Applies the record permutation `idx` to every time-dimensioned variable and keeps the
      others. */
  function ReorderAll(vars: seq<Variable>, n: nat, idx: seq<nat>): (r: seq<Variable>)
    requires forall k :: 0 <= k < |vars| && vars[k].timeDimensioned ==> |vars[k].values| == n
    requires forall j :: 0 <= j < |idx| ==> idx[j] < n
    ensures |r| == |vars|
    ensures forall k :: 0 <= k < |vars| ==>
      r[k].name == vars[k].name && r[k].timeDimensioned == vars[k].timeDimensioned
    ensures forall k :: 0 <= k < |vars| && !vars[k].timeDimensioned ==> r[k] == vars[k]
    ensures forall k :: 0 <= k < |vars| && vars[k].timeDimensioned ==>
      |r[k].values| == |idx| && forall j :: 0 <= j < |idx| ==> r[k].values[j] == vars[k].values[idx[j]]
  {
    seq(|vars|, k requires 0 <= k < |vars| =>
      var v := vars[k];
      if v.timeDimensioned then Variable(v.name, true, Permute(v.values, idx)) else v)
  }

  /** The whole tool: an axis whose every step is positive is copied unchanged; otherwise time
      and every time-dimensioned variable are taken at `argsort(time)`. */
  function FixMonotonicity(ds: Dataset): (out: Dataset)
    requires WellFormed(ds)
  {
    if AllStepsPositive(ds.time) then ds
    else
      var idx := ArgSort(ds.time);
      Dataset(Permute(ds.time, idx), ReorderAll(ds.variables, |ds.time|, idx))
  }

  /** Every step is positive exactly when the axis is strictly increasing. */
  lemma {:induction false} AllStepsPositiveIffIncreasing(t: seq<int>)
    ensures AllStepsPositive(t) <==> StrictlyIncreasing(t)
  {
    var d := Diffs(t);
    assert forall j :: 0 <= j < |t| - 1 ==> d[j] == t[j + 1] - t[j];
    if AllStepsPositive(t) {
      forall i, j | 0 <= i < j < |t| ensures t[i] < t[j] {
        IncreasingBetween(t, i, j);
      }
    }
  }

  /** When each element is smaller than the next, `t[i] < t[j]` for `i < j`. */
  lemma {:induction false} IncreasingBetween(t: seq<int>, i: nat, j: nat)
    requires i < j < |t| && forall k :: 0 <= k < |t| - 1 ==> t[k] < t[k + 1]
    ensures t[i] < t[j]
  {
    if j > i + 1 {
      IncreasingBetween(t, i, j - 1);
    }
  }

  /** The output time axis is the sorted input axis, hence non-decreasing and a permutation of
      the input; every variable keeps its name and kind, variables without a time dimension are
      unchanged, and the output is again well formed. */
  lemma {:induction false} FixMonotonicitySpec(ds: Dataset)
    requires WellFormed(ds)
    ensures FixMonotonicity(ds).time == Sort(ds.time)
    ensures Sorted(FixMonotonicity(ds).time)
    ensures multiset(FixMonotonicity(ds).time) == multiset(ds.time)
    ensures |FixMonotonicity(ds).variables| == |ds.variables|
    ensures forall k :: 0 <= k < |ds.variables| ==>
      FixMonotonicity(ds).variables[k].name == ds.variables[k].name &&
      FixMonotonicity(ds).variables[k].timeDimensioned == ds.variables[k].timeDimensioned
    ensures forall k :: 0 <= k < |ds.variables| && !ds.variables[k].timeDimensioned ==>
      FixMonotonicity(ds).variables[k] == ds.variables[k]
    ensures WellFormed(FixMonotonicity(ds))
  {
    FixedTime(ds);
    FixedVariables(ds);
  }

  lemma {:induction false} FixedTime(ds: Dataset)
    requires WellFormed(ds)
    ensures FixMonotonicity(ds).time == Sort(ds.time)
  {
    AllStepsPositiveIffIncreasing(ds.time);
    if AllStepsPositive(ds.time) {
      assert Sorted(ds.time);
      SortOfSorted(ds.time);
    }
  }

  lemma {:induction false} FixedVariables(ds: Dataset)
    requires WellFormed(ds)
    ensures |FixMonotonicity(ds).time| == |ds.time|
    ensures |FixMonotonicity(ds).variables| == |ds.variables|
    ensures forall k :: 0 <= k < |ds.variables| ==>
      FixMonotonicity(ds).variables[k].name == ds.variables[k].name &&
      FixMonotonicity(ds).variables[k].timeDimensioned == ds.variables[k].timeDimensioned
    ensures forall k :: 0 <= k < |ds.variables| && !ds.variables[k].timeDimensioned ==>
      FixMonotonicity(ds).variables[k] == ds.variables[k]
    ensures WellFormed(FixMonotonicity(ds))
  {
  }

  /** The record order the tool applies: the identity for an increasing axis, `argsort(time)`
      otherwise. */
  function RecordOrder(t: seq<int>): (idx: seq<nat>)
    ensures |idx| == |t| && multiset(idx) == multiset(Range(0, |t|))
    ensures forall j :: 0 <= j < |idx| ==> idx[j] < |t|
  {
    if AllStepsPositive(t) then Range(0, |t|) else ArgSort(t)
  }

  /** Records stay whole: output record `j` is input record `RecordOrder(time)[j]`, a
      permutation of the record indices, in time and in every time-dimensioned variable. */
  lemma {:induction false} FixMonotonicityKeepsRecords(ds: Dataset)
    requires WellFormed(ds)
    ensures forall j :: 0 <= j < |ds.time| ==>
      FixMonotonicity(ds).time[j] == ds.time[RecordOrder(ds.time)[j]]
    ensures forall k, j :: 0 <= k < |ds.variables| && ds.variables[k].timeDimensioned && 0 <= j < |ds.time| ==>
      FixMonotonicity(ds).variables[k].values[j] == ds.variables[k].values[RecordOrder(ds.time)[j]]
  {
    var idx := RecordOrder(ds.time);
    var out := FixMonotonicity(ds);
    if AllStepsPositive(ds.time) {
      assert out == ds;
      assert forall j :: 0 <= j < |ds.time| ==> idx[j] == j;
    } else {
      Reordered(ds.time, ds.variables, idx, out);
    }
  }

  lemma {:induction false} Reordered(time: seq<int>, vars: seq<Variable>, idx: seq<nat>, out: Dataset)
    requires forall k :: 0 <= k < |vars| && vars[k].timeDimensioned ==> |vars[k].values| == |time|
    requires forall j :: 0 <= j < |idx| ==> idx[j] < |time|
    requires out == Dataset(Permute(time, idx), ReorderAll(vars, |time|, idx))
    ensures forall j :: 0 <= j < |idx| ==> out.time[j] == time[idx[j]]
    ensures forall k, j :: 0 <= k < |vars| && vars[k].timeDimensioned && 0 <= j < |idx| ==>
      out.variables[k].values[j] == vars[k].values[idx[j]]
  {
  }

  /** Fixing a fixed file changes nothing more. */
  lemma {:induction false} FixMonotonicityIdempotent(ds: Dataset)
    requires WellFormed(ds)
    ensures FixMonotonicity(FixMonotonicity(ds)) == FixMonotonicity(ds)
  {
    FixMonotonicitySpec(ds);
    var out := FixMonotonicity(ds);
    if !AllStepsPositive(out.time) {
      var n := |out.time|;
      ArgSortOfSorted(out.time);
      PermuteRange(out.time);
      ReorderIdentity(out.variables, n);
    }
  }

  /** The identity permutation changes no variable. */
  lemma {:induction false} ReorderIdentity(vars: seq<Variable>, n: nat)
    requires forall k :: 0 <= k < |vars| && vars[k].timeDimensioned ==> |vars[k].values| == n
    ensures ReorderAll(vars, n, Range(0, n)) == vars
  {
    var r := ReorderAll(vars, n, Range(0, n));
    forall k | 0 <= k < |vars| ensures r[k] == vars[k] {
      if vars[k].timeDimensioned {
        assert r[k].values == vars[k].values;
      }
    }
  }
}
