/** The depth windows shared by the depth-level resolution and the depth aggregation: a raw
    sample belongs to a level when it lies within 5% of the level's magnitude, but at least
    0.5 m, widened by a 20% tolerance; the levels are visited in order and every sample is
    consumed by the first level whose window holds it. */
module DepthLevels {
  import opened Wrappers
  import opened Series
  import Numerics

  const MinimumSpace: real := 0.5
  const AverageThreshold: real := 0.05
  const Tolerance: real := 0.2

  /** The half width of the window of a level. */
  function Window(level: real): (w: real)
    ensures w >= MinimumSpace * (1.0 + Tolerance)
    ensures w >= Numerics.Abs(level) * AverageThreshold * (1.0 + Tolerance)
  {
    Numerics.Max(Numerics.Abs(level) * AverageThreshold, MinimumSpace) * (1.0 + Tolerance)
  }

  predicate InWindow(d: real, level: real) {
    Numerics.Abs(d - level) <= Window(level)
  }

  /** A level's own depth is in its window. */
  lemma {:induction false} LevelInOwnWindow(level: real)
    ensures InWindow(level, level)
  {
    assert Numerics.Abs(level - level) == 0.0;
  }

  /** Records of values over the depth samples of every record: one depth per value. */
  predicate Shaped(work: Matrix, depths: seq<seq<real>>) {
    |work| == |depths| && forall t :: 0 <= t < |work| ==> |work[t]| == |depths[t]|
  }

  /** The index of the first level whose window holds `d`, or the number of levels. */
  function FirstLevel(d: real, levels: seq<real>): (k: nat)
    ensures k <= |levels|
    ensures k < |levels| ==> InWindow(d, levels[k])
    ensures forall i :: 0 <= i < k ==> !InWindow(d, levels[i])
  {
    if levels == [] then 0
    else if InWindow(d, levels[0]) then 0
    else 1 + FirstLevel(d, levels[1..])
  }

  /** The first level of a prefix is the first level of the whole list when it lies in the
      prefix, and nothing otherwise. */
  lemma {:induction false} FirstLevelPrefix(d: real, levels: seq<real>, k: nat)
    requires k <= |levels|
    ensures FirstLevel(d, levels[..k]) < k <==> FirstLevel(d, levels) < k
    ensures FirstLevel(d, levels) < k ==> FirstLevel(d, levels[..k]) == FirstLevel(d, levels)
  {
    var a, b := FirstLevel(d, levels[..k]), FirstLevel(d, levels);
    if a < k {
      assert levels[..k][a] == levels[a];
      assert forall i :: 0 <= i < a ==> levels[..k][i] == levels[i];
    }
    if b < k {
      assert levels[..k][b] == levels[b];
      assert forall i :: 0 <= i < b ==> levels[..k][i] == levels[i];
    }
  }

  /** The values of one record in the window of `level`, masked elsewhere. */
  function WindowRow(row: seq<Option<real>>, depths: seq<real>, level: real): (r: seq<Option<real>>)
    requires |row| == |depths|
    ensures |r| == |row|
    ensures forall j :: 0 <= j < |row| ==> r[j] == (if InWindow(depths[j], level) then row[j] else None)
  {
    seq(|row|, j requires 0 <= j < |row| => if InWindow(depths[j], level) then row[j] else None)
  }

  /** The values in the window of `level` masked, as once the level has used them. */
  function Consume(work: Matrix, depths: seq<seq<real>>, level: real): (r: Matrix)
    requires Shaped(work, depths)
    ensures Shaped(r, depths)
    ensures forall t, j :: 0 <= t < |work| && 0 <= j < |work[t]| ==>
      r[t][j] == (if InWindow(depths[t][j], level) then None else work[t][j])
  {
    seq(|work|, t requires 0 <= t < |work| =>
      seq(|work[t]|, j requires 0 <= j < |work[t]| => if InWindow(depths[t][j], level) then None else work[t][j]))
  }

  /** The values left once the levels have been visited in order. */
  function Consumed(work: Matrix, depths: seq<seq<real>>, levels: seq<real>): (r: Matrix)
    requires Shaped(work, depths)
    ensures Shaped(r, depths)
  {
    if levels == [] then work
    else Consume(Consumed(work, depths, levels[..|levels| - 1]), depths, levels[|levels| - 1])
  }

  /** A value is left exactly when no level visited holds its depth. */
  lemma {:induction false} ConsumedCell(work: Matrix, depths: seq<seq<real>>, levels: seq<real>, t: nat, j: nat)
    requires Shaped(work, depths) && t < |work| && j < |work[t]|
    ensures Consumed(work, depths, levels)[t][j] == (if FirstLevel(depths[t][j], levels) < |levels| then None else work[t][j])
  {
    if levels != [] {
      var n := |levels| - 1;
      ConsumedCell(work, depths, levels[..n], t, j);
      FirstLevelPrefix(depths[t][j], levels, n);
    }
  }

  /** The values of one record that the `k`-th level takes: those whose depth lies first in
      its window. */
  function Owned(row: seq<Option<real>>, depths: seq<real>, levels: seq<real>, k: nat): (r: seq<Option<real>>)
    requires |row| == |depths|
    ensures |r| == |row|
  {
    seq(|row|, j requires 0 <= j < |row| => if FirstLevel(depths[j], levels) == k then row[j] else None)
  }

  /** At each time, the mean of the values left in the window of `level`, masked when there
      is none. */
  function LevelMeans(work: Matrix, depths: seq<seq<real>>, level: real): (m: seq<Option<real>>)
    requires Shaped(work, depths)
    ensures |m| == |work|
    ensures forall t :: 0 <= t < |work| ==> m[t] == MeanValid(WindowRow(work[t], depths[t], level))
  {
    seq(|work|, t requires 0 <= t < |work| => MeanValid(WindowRow(work[t], depths[t], level)))
  }

  /** The means of the `k`-th level, once the earlier levels have taken their values. */
  function MeansAt(work: Matrix, depths: seq<seq<real>>, levels: seq<real>, k: nat): (m: seq<Option<real>>)
    requires Shaped(work, depths) && k < |levels|
    ensures |m| == |work|
  {
    LevelMeans(Consumed(work, depths, levels[..k]), depths, levels[k])
  }

  /** What a level averages at a time is exactly what it owns there: a value goes to the first
      level whose window holds it and to no other. */
  lemma {:induction false} MeansAtOwned(work: Matrix, depths: seq<seq<real>>, levels: seq<real>, k: nat, t: nat)
    requires Shaped(work, depths) && k < |levels| && t < |work|
    ensures MeansAt(work, depths, levels, k)[t] == MeanValid(Owned(work[t], depths[t], levels, k))
  {
    var c := Consumed(work, depths, levels[..k]);
    var w := WindowRow(c[t], depths[t], levels[k]);
    var o := Owned(work[t], depths[t], levels, k);
    forall j | 0 <= j < |work[t]|
      ensures w[j] == o[j]
    {
      var d := depths[t][j];
      ConsumedCell(work, depths, levels[..k], t, j);
      FirstLevelPrefix(d, levels, k);
      assert levels[..k + 1][..k] == levels[..k];
      FirstLevelPrefix(d, levels, k + 1);
      assert levels[..k + 1][k] == levels[k];
    }
    assert w == o;
  }

  /** Some depth sample lies in the window of `level`. */
  predicate AnyInWindow(samples: seq<real>, level: real) {
    exists i :: 0 <= i < |samples| && InWindow(samples[i], level)
  }
}
