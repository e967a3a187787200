/** `duplicated_records_remover`: merges the records that share a time stamp into one record
    holding the mean of their unmasked values (SOURCE/duplicated_records_remover.py). */
module DuplicatedRecords {
  import opened Wrappers
  import opened Sorting
  import opened Steps
  import opened Records
  import Series

  /** Marks the records stamped `u`. */
  function AtTime(times: seq<int>, u: int): (m: seq<bool>)
    ensures |m| == |times| && forall i :: 0 <= i < |times| ==> m[i] == (times[i] == u)
  {
    seq(|times|, i requires 0 <= i < |times| => times[i] == u)
  }

  /** The values of the records stamped `u`, in record order. */
  function Group(times: seq<int>, values: seq<Option<real>>, u: int): seq<Option<real>>
    requires |values| == |times|
  {
    Series.Select(values, AtTime(times, u))
  }

  /** The averaged column: for each distinct time, in increasing order, the mean of the
      unmasked values recorded at that time, masked when all of them are masked. */
  function Averaged(times: seq<int>, values: seq<Option<real>>): (r: seq<Option<real>>)
    requires |values| == |times|
    ensures |r| == |Unique(times)|
  {
    GroupMeans(times, values, Unique(times))
  }

  /** Per time in `u`, the masked mean of the values recorded at that time. */
  function GroupMeans(times: seq<int>, values: seq<Option<real>>, u: seq<int>): (r: seq<Option<real>>)
    requires |values| == |times|
    ensures |r| == |u|
  {
    seq(|u|, g requires 0 <= g < |u| => Series.MeanValid(Group(times, values, u[g])))
  }

  /** 1 for a masked element, 0 otherwise (the boolean mask as a number). */
  function MaskBit(x: Option<real>): (b: nat)
    ensures b == 1 <==> x.None?
    ensures b <= 1
  {
    if x.None? then 1 else 0
  }

  /** Number of masked elements. */
  function CountMasked(s: seq<Option<real>>): (n: nat)
    ensures n + Series.CountValid(s) == |s|
  {
    if s == [] then 0 else MaskBit(s[|s| - 1]) + CountMasked(s[..|s| - 1])
  }

  /** Per distinct time in `u`, the filled sum of the values recorded at that time. */
  ghost function GroupSums(times: seq<int>, values: seq<Option<real>>, u: seq<int>): seq<real>
    requires |values| == |times|
  {
    seq(|u|, g requires 0 <= g < |u| => Series.SumValid(Group(times, values, u[g])))
  }

  /** Per distinct time in `u`, the number of masked values recorded at that time. */
  ghost function GroupMasked(times: seq<int>, values: seq<Option<real>>, u: seq<int>): seq<int>
    requires |values| == |times|
  {
    seq(|u|, g requires 0 <= g < |u| => CountMasked(Group(times, values, u[g])) as int)
  }

  /** Adding record `i` changes only the sum of its own time. */
  lemma {:induction false} SumStep(times: seq<int>, values: seq<Option<real>>, u: seq<int>, i: nat, k: nat)
    requires |values| == |times| && i < |times|
    requires StrictlyIncreasing(u) && k < |u| && u[k] == times[i]
    ensures GroupSums(times[..i + 1], values[..i + 1], u) ==
      GroupSums(times[..i], values[..i], u)[k := GroupSums(times[..i], values[..i], u)[k] + values[i].GetOr(0.0)]
  {
    AccumulateStep(times, values, u, i, k);
    AppendOne(Group(times[..i], values[..i], u[k]), values[i]);
  }

  /** Adding record `i` changes only the masked count of its own time. */
  lemma {:induction false} MaskStep(times: seq<int>, values: seq<Option<real>>, u: seq<int>, i: nat, k: nat)
    requires |values| == |times| && i < |times|
    requires StrictlyIncreasing(u) && k < |u| && u[k] == times[i]
    ensures GroupMasked(times[..i + 1], values[..i + 1], u) ==
      GroupMasked(times[..i], values[..i], u)[k := GroupMasked(times[..i], values[..i], u)[k] + MaskBit(values[i])]
  {
    AccumulateStep(times, values, u, i, k);
    AppendOne(Group(times[..i], values[..i], u[k]), values[i]);
  }

  /** Appending one value adds its filled value to the sum and its mask bit to the count. */
  lemma {:induction false} AppendOne(s: seq<Option<real>>, x: Option<real>)
    ensures Series.SumValid(s + [x]) == Series.SumValid(s) + x.GetOr(0.0)
    ensures CountMasked(s + [x]) == CountMasked(s) + MaskBit(x)
  {
    assert (s + [x])[..|s|] == s;
  }

  /** Before any record, every sum and count is zero. */
  lemma {:induction false} NothingAccumulated(times: seq<int>, values: seq<Option<real>>, u: seq<int>)
    requires |values| == |times|
    ensures GroupSums(times[..0], values[..0], u) == seq(|u|, _ => 0.0)
    ensures GroupMasked(times[..0], values[..0], u) == seq(|u|, _ => 0)
  {
  }

  /** `np.add.at(sum, reverse_indices, filled)`: per distinct time, the sum of the values with
      masked ones filled by 0. */
  method AddAtSums(times: seq<int>, values: seq<Option<real>>, u: seq<int>) returns (sums: array<real>)
    requires |values| == |times|
    requires StrictlyIncreasing(u) && forall i :: 0 <= i < |times| ==> times[i] in u
    ensures sums[..] == GroupSums(times, values, u)
  {
    sums := new real[|u|](_ => 0.0);
    NothingAccumulated(times, values, u);
    var i := 0;
    while i < |times|
      invariant 0 <= i <= |times|
      invariant sums[..] == GroupSums(times[..i], values[..i], u)
    {
      var k := IndexOf(u, times[i]);
      SumStep(times, values, u, i, k);
      sums[k] := sums[k] + values[i].GetOr(0.0);
      i := i + 1;
    }
    assert times[..i] == times && values[..i] == values;
  }

  /** `np.add.at(masked_count, reverse_indices, mask)`: per distinct time, the number of masked
      values. */
  method AddAtMasked(times: seq<int>, values: seq<Option<real>>, u: seq<int>) returns (maskedCounts: array<int>)
    requires |values| == |times|
    requires StrictlyIncreasing(u) && forall i :: 0 <= i < |times| ==> times[i] in u
    ensures maskedCounts[..] == GroupMasked(times, values, u)
  {
    maskedCounts := new int[|u|](_ => 0);
    NothingAccumulated(times, values, u);
    var i := 0;
    while i < |times|
      invariant 0 <= i <= |times|
      invariant maskedCounts[..] == GroupMasked(times[..i], values[..i], u)
    {
      var k := IndexOf(u, times[i]);
      MaskStep(times, values, u, i, k);
      maskedCounts[k] := maskedCounts[k] + MaskBit(values[i]);
      i := i + 1;
    }
    assert times[..i] == times && values[..i] == values;
  }

  /** The tool's averaging of one time-dimensioned variable: the two `np.add.at` accumulations,
      then the division of each sum by the group size less the masked count. */
  method AverageDuplicates(times: seq<int>, values: seq<Option<real>>) returns (out: seq<Option<real>>)
    requires |values| == |times|
    ensures out == Averaged(times, values)
  {
    var u := Unique(times);
    var sumArray := AddAtSums(times, values, u);
    var maskedArray := AddAtMasked(times, values, u);
    out := Divide(times, values, u, sumArray[..], maskedArray[..]);
  }

  /** count = group size - masked count per distinct time; the element is masked where the
      count is 0 and is sum / count elsewhere. */
  method Divide(times: seq<int>, values: seq<Option<real>>, u: seq<int>, sums: seq<real>, maskedCounts: seq<int>)
    returns (out: seq<Option<real>>)
    requires |values| == |times|
    requires sums == GroupSums(times, values, u)
    requires maskedCounts == GroupMasked(times, values, u)
    ensures out == GroupMeans(times, values, u)
  {
    ghost var averaged := GroupMeans(times, values, u);
    out := [];
    var g := 0;
    while g < |u|
      invariant 0 <= g <= |u|
      invariant out == averaged[..g]
    {
      AveragedEntry(times, values, u, g, sums, maskedCounts);
      var count := Count(times, u[g]) - maskedCounts[g];
      out := out + [if count == 0 then None else Some(sums[g] / count as real)];
      g := g + 1;
    }
    assert averaged[..g] == averaged;
  }

  /** Entry `g` of the averaged column from the accumulated sum and masked count. */
  lemma {:induction false} AveragedEntry(times: seq<int>, values: seq<Option<real>>, u: seq<int>, g: nat,
                      sums: seq<real>, maskedCounts: seq<int>)
    requires |values| == |times| && g < |u|
    requires sums == GroupSums(times, values, u)
    requires maskedCounts == GroupMasked(times, values, u)
    ensures Count(times, u[g]) - maskedCounts[g] >= 0
    ensures GroupMeans(times, values, u)[g] ==
      if Count(times, u[g]) - maskedCounts[g] == 0 then None
      else Some(sums[g] / (Count(times, u[g]) - maskedCounts[g]) as real)
  {
    assert GroupMeans(times, values, u)[g] == Series.MeanValid(Group(times, values, u[g]));
    assert sums[g] == Series.SumValid(Group(times, values, u[g]));
    assert maskedCounts[g] == CountMasked(Group(times, values, u[g]));
    GroupMean(times, values, u[g], sums[g], maskedCounts[g]);
  }

  /** Dividing the filled sum by the group size less the masked count is the masked mean. */
  lemma {:induction false} GroupMean(times: seq<int>, values: seq<Option<real>>, u: int, sum: real, masked: nat)
    requires |values| == |times|
    requires sum == Series.SumValid(Group(times, values, u))
    requires masked == CountMasked(Group(times, values, u))
    ensures Count(times, u) - masked >= 0
    ensures Series.MeanValid(Group(times, values, u)) ==
      if Count(times, u) - masked == 0 then None else Some(sum / (Count(times, u) - masked) as real)
  {
    GroupSize(times, values, u);
  }

  /** One record joins exactly the group of its own time. */
  lemma {:induction false} AccumulateStep(times: seq<int>, values: seq<Option<real>>, u: seq<int>, i: nat, k: nat)
    requires |values| == |times| && i < |times|
    requires StrictlyIncreasing(u) && k < |u| && u[k] == times[i]
    ensures Group(times[..i + 1], values[..i + 1], u[k]) == Group(times[..i], values[..i], u[k]) + [values[i]]
    ensures forall g :: 0 <= g < |u| && g != k ==>
      Group(times[..i + 1], values[..i + 1], u[g]) == Group(times[..i], values[..i], u[g])
  {
    assert times[..i + 1][..i] == times[..i];
    assert values[..i + 1][..i] == values[..i];
    forall g | 0 <= g < |u|
      ensures AtTime(times[..i + 1], u[g])[..i] == AtTime(times[..i], u[g])
    {
    }
  }

  /** A group has as many elements as there are records at its time. */
  lemma {:induction false} GroupSize(times: seq<int>, values: seq<Option<real>>, u: int)
    requires |values| == |times|
    ensures |Group(times, values, u)| == Count(times, u)
  {
    if times != [] {
      var n := |times| - 1;
      assert times == times[..n] + [times[n]];
      assert AtTime(times, u)[..n] == AtTime(times[..n], u);
      GroupSize(times[..n], values[..n], u);
    }
  }

  /** The whole tool: with no repeated time the file is copied unchanged; otherwise the time axis
      becomes the distinct times, each time-dimensioned variable is averaged per time, and the
      other variables are kept. */
  function RemoveDuplicates(ds: Dataset): (out: Dataset)
    requires WellFormed(ds)
  {
    var u := Unique(ds.time);
    if |u| == |ds.time| then ds
    else Dataset(u, seq(|ds.variables|, k requires 0 <= k < |ds.variables| =>
      var v := ds.variables[k];
      if v.timeDimensioned then Variable(v.name, true, Averaged(ds.time, v.values)) else v))
  }

  /** The output time axis is strictly increasing and holds every input time exactly once;
      every averaged element is masked iff all records at its time are masked for it. */
  lemma {:induction false} RemoveDuplicatesSpec(ds: Dataset)
    requires WellFormed(ds)
    ensures StrictlyIncreasing(RemoveDuplicates(ds).time) || RemoveDuplicates(ds) == ds
    ensures forall x :: x in RemoveDuplicates(ds).time <==> x in ds.time
    ensures |RemoveDuplicates(ds).variables| == |ds.variables|
    ensures WellFormed(RemoveDuplicates(ds))
    ensures forall k :: 0 <= k < |ds.variables| && !ds.variables[k].timeDimensioned ==>
      RemoveDuplicates(ds).variables[k] == ds.variables[k]
  {
  }

  /** Each averaged element is masked iff every contributing value is masked. */
  lemma {:induction false} AveragedMeaning(times: seq<int>, values: seq<Option<real>>, g: nat)
    requires |values| == |times| && g < |Unique(times)|
    ensures Averaged(times, values)[g].None? <==>
      forall i :: 0 <= i < |times| && times[i] == Unique(times)[g] ==> values[i].None?
  {
    var u := Unique(times);
    var grp := Group(times, values, u[g]);
    GroupMembers(times, values, u[g]);
  }

  /** The group at `u` is exactly the values of the records stamped `u`. */
  lemma {:induction false} GroupMembers(times: seq<int>, values: seq<Option<real>>, u: int)
    requires |values| == |times|
    ensures (forall j :: 0 <= j < |Group(times, values, u)| ==> Group(times, values, u)[j].None?) <==>
      forall i :: 0 <= i < |times| && times[i] == u ==> values[i].None?
  {
    if times != [] {
      var n := |times| - 1;
      assert AtTime(times, u)[..n] == AtTime(times[..n], u);
      assert values[..n] + [values[n]] == values;
      var g := Group(times, values, u);
      var g' := Group(times[..n], values[..n], u);
      var tail := if times[n] == u then [values[n]] else [];
      assert g == g' + tail;
      GroupMembers(times[..n], values[..n], u);
      assert (forall j :: 0 <= j < |g| ==> g[j].None?) <==>
        (forall j :: 0 <= j < |g'| ==> g'[j].None?) && (forall j :: 0 <= j < |tail| ==> tail[j].None?) by {
        assert forall j :: 0 <= j < |g'| ==> g[j] == g'[j];
        assert forall j :: 0 <= j < |tail| ==> g[|g'| + j] == tail[j];
      }
      assert forall i :: 0 <= i < n ==> times[..n][i] == times[i] && values[..n][i] == values[i];
    }
  }
}
