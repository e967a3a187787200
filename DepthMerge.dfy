/** The candidate depth levels of an observation file and their merging: the distinct raw
    depths (fills excluded) with their number of occurrences, the spacing test, and the merge
    of close candidates into count-weighted averages. */
module DepthMerge {
  import opened Sorting
  import Numerics
  import DepthLevels

  /** The fill value of the pipeline's files; a masked depth holds it. */
  const FillValue: real := 100000000000000000000.0

  /** A raw depth within a tenth of the fill value is a fill, not a depth. */
  predicate IsFill(d: real) {
    Numerics.Abs(d - FillValue) <= FillValue / 10.0
  }

  /** The entries of an increasing sequence that are not fills. */
  function WithoutFill(xs: seq<real>): (r: seq<real>)
    requires IncreasingReals(xs)
    ensures IncreasingReals(r)
    ensures forall y :: y in r <==> y in xs && !IsFill(y)
  {
    if xs == [] then []
    else
      var n := |xs| - 1;
      assert IncreasingReals(xs[..n]);
      var init := WithoutFill(xs[..n]);
      assert forall i :: 0 <= i < |init| ==> init[i] < xs[n] by {
        forall i | 0 <= i < |init|
          ensures init[i] < xs[n]
        {
          var y := init[i];
          assert y in init;
          var j :| 0 <= j < n && xs[..n][j] == y;
          assert xs[j] == y;
        }
      }
      assert xs == xs[..n] + [xs[n]];
      assert IncreasingReals(init + [xs[n]]) by {
        var r := init + [xs[n]];
        assert forall i :: 0 <= i < |init| ==> r[i] == init[i];
      }
      if IsFill(xs[n]) then init else init + [xs[n]]
  }

  /** The number of occurrences of `v` in `xs`. */
  function Occurrences(xs: seq<real>, v: real): (n: nat)
    ensures n > 0 <==> v in xs
  {
    if xs == [] then 0
    else
      assert xs == xs[..|xs| - 1] + [xs[|xs| - 1]];
      (if xs[|xs| - 1] == v then 1 else 0) + Occurrences(xs[..|xs| - 1], v)
  }

  /** The candidate depths: the distinct raw depths in increasing order, fills excluded. */
  function Candidates(flat: seq<real>): (u: seq<real>)
    ensures IncreasingReals(u)
    ensures forall y :: y in u <==> y in flat && !IsFill(y)
  {
    WithoutFill(SortedDistinct(flat))
  }

  /** The number of raw samples at each candidate. */
  function Counts(flat: seq<real>, u: seq<real>): (c: seq<nat>)
    ensures |c| == |u| && forall i :: 0 <= i < |u| ==> c[i] == Occurrences(flat, u[i])
  {
    seq(|u|, i requires 0 <= i < |u| => Occurrences(flat, u[i]))
  }

  /** Increasing candidates, each with a positive number of samples. */
  predicate Weighted(u: seq<real>, c: seq<nat>) {
    IncreasingReals(u) && |c| == |u| && forall i :: 0 <= i < |c| ==> c[i] > 0
  }

  /** Every candidate occurs at least once among the raw depths. */
  lemma {:induction false} CandidatesWeighted(flat: seq<real>)
    ensures Weighted(Candidates(flat), Counts(flat, Candidates(flat)))
  {
    var u := Candidates(flat);
    forall i | 0 <= i < |u|
      ensures Occurrences(flat, u[i]) > 0
    {
      assert u[i] in u;
    }
  }

  // ---------------------------------------------------------------- spacing

  /** Two consecutive candidates are too close: less than 5% of the lower one, or less than
      the minimum space, apart. */
  predicate CloseStep(lower: real, upper: real) {
    Numerics.Abs(upper - lower) < lower * DepthLevels.AverageThreshold ||
    Numerics.Abs(upper - lower) < DepthLevels.MinimumSpace
  }

  predicate GoodSpaced(u: seq<real>) {
    forall d :: 1 <= d < |u| ==> !CloseStep(u[d - 1], u[d])
  }

  /** The spacing loop, stopping at the first close step. */
  method GoodSpacing(u: seq<real>) returns (good: bool)
    ensures good == GoodSpaced(u)
  {
    good := true;
    var d := 1;
    while d < |u|
      invariant 1 <= d && (|u| > 0 ==> d <= |u|)
      invariant forall e :: 1 <= e < d && e < |u| ==> !CloseStep(u[e - 1], u[e])
    {
      if CloseStep(u[d - 1], u[d]) {
        good := false;
        break;
      }
      d := d + 1;
    }
  }

  lemma {:induction false} ApartFrom(u: seq<real>, i: nat, j: nat)
    requires IncreasingReals(u) && GoodSpaced(u) && i < j < |u|
    ensures u[j] - u[i] >= DepthLevels.MinimumSpace * (j - i) as real
  {
    assert !CloseStep(u[j - 1], u[j]);
    if i < j - 1 {
      ApartFrom(u, i, j - 1);
    }
  }

  /** Well spaced candidates are at least the minimum space apart, pairwise. */
  lemma {:induction false} GoodSpacedApart(u: seq<real>)
    requires IncreasingReals(u) && GoodSpaced(u)
    ensures forall i, j :: 0 <= i < j < |u| ==> u[j] - u[i] >= DepthLevels.MinimumSpace
  {
    forall i, j | 0 <= i < j < |u|
      ensures u[j] - u[i] >= DepthLevels.MinimumSpace
    {
      ApartFrom(u, i, j);
    }
  }

  // ---------------------------------------------------------------- weighted averages

  /** The count-weighted sum of the candidates `lo` up to `hi` excluded. */
  function WeightedSum(u: seq<real>, c: seq<nat>, lo: nat, hi: nat): real
    requires lo <= hi <= |u| && |c| == |u|
    decreases hi - lo
  {
    if lo == hi then 0.0 else WeightedSum(u, c, lo, hi - 1) + u[hi - 1] * c[hi - 1] as real
  }

  /** The number of samples at the candidates `lo` up to `hi` excluded. */
  function Weight(c: seq<nat>, lo: nat, hi: nat): real
    requires lo <= hi <= |c|
    decreases hi - lo
  {
    if lo == hi then 0.0 else Weight(c, lo, hi - 1) + c[hi - 1] as real
  }

  lemma {:induction false} Scale(a: real, b: real, w: real)
    requires a <= b && w >= 0.0
    ensures a * w <= b * w
  {
  }

  lemma {:induction false} ScaleStrict(a: real, b: real, w: real)
    requires a < b && w > 0.0
    ensures a * w < b * w
  {
  }

  lemma {:induction false} SumBounds(u: seq<real>, c: seq<nat>, lo: nat, hi: nat)
    requires Weighted(u, c) && lo < hi <= |u|
    ensures Weight(c, lo, hi) > 0.0
    ensures u[lo] * Weight(c, lo, hi) <= WeightedSum(u, c, lo, hi) <= u[hi - 1] * Weight(c, lo, hi)
  {
    var x, k := u[hi - 1], c[hi - 1] as real;
    if hi > lo + 1 {
      SumBounds(u, c, lo, hi - 1);
      var s, w := WeightedSum(u, c, lo, hi - 1), Weight(c, lo, hi - 1);
      assert WeightedSum(u, c, lo, hi) == s + x * k && Weight(c, lo, hi) == w + k;
      assert u[lo] <= u[hi - 2] <= x;
      BoundsStep(u[lo], u[hi - 2], x, s, w, k);
    }
  }

  /** Bounds `a * w <= s <= b * w` on a weighted sum carry over to the sum with a greater
      value `x` of weight `k` taken in. */
  lemma {:induction false} BoundsStep(a: real, b: real, x: real, s: real, w: real, k: real)
    requires a <= b <= x && w > 0.0 && k > 0.0 && a * w <= s <= b * w
    ensures w + k > 0.0 && a * (w + k) <= s + x * k <= x * (w + k)
  {
    Scale(a, x, k);
    Scale(b, x, w);
    Distribute(a, w, k);
    Distribute(x, w, k);
    assert a * w + a * k <= s + x * k;
    assert s + x * k <= x * w + x * k;
  }

  lemma {:induction false} Distribute(a: real, w: real, k: real)
    ensures a * (w + k) == a * w + a * k
  {
  }

  lemma {:induction false} Between(s: real, w: real, lo: real, hi: real)
    requires w > 0.0 && lo * w <= s <= hi * w
    ensures lo <= s / w <= hi
  {
    var a := s / w;
    assert a * w == s;
    if a < lo {
      ScaleStrict(a, lo, w);
      assert false;
    }
    if a > hi {
      ScaleStrict(hi, a, w);
      assert false;
    }
  }

  /** `np.average` of the candidates `lo` up to `hi` excluded, weighted by their counts: it
      lies between the first and the last of them. */
  function Average(u: seq<real>, c: seq<nat>, lo: nat, hi: nat): (a: real)
    requires Weighted(u, c) && lo < hi <= |u|
    ensures u[lo] <= a <= u[hi - 1]
  {
    SumBounds(u, c, lo, hi);
    Between(WeightedSum(u, c, lo, hi), Weight(c, lo, hi), u[lo], u[hi - 1]);
    WeightedSum(u, c, lo, hi) / Weight(c, lo, hi)
  }

  lemma {:induction false} AtLeast(s: real, w: real, lo: real)
    requires w > 0.0 && lo * w <= s
    ensures lo <= s / w
  {
    var a := s / w;
    assert a * w == s;
    if a < lo {
      ScaleStrict(a, lo, w);
      assert false;
    }
  }

  lemma {:induction false} MeanStep(s: real, w: real, x: real, k: real)
    requires w > 0.0 && k > 0.0 && s <= x * w
    ensures s / w <= (s + x * k) / (w + k)
  {
    var a := s / w;
    assert a * w == s;
    AtLeast(x * w, w, a);
    assert x * w / w == x;
    Scale(a, x, k);
    assert a * (w + k) == a * w + a * k;
    AtLeast(s + x * k, w + k, a);
  }

  /** Taking in the next, greater candidate does not lower the average. */
  lemma {:induction false} AverageGrows(u: seq<real>, c: seq<nat>, lo: nat, hi: nat)
    requires Weighted(u, c) && lo < hi < |u|
    ensures Average(u, c, lo, hi) <= Average(u, c, lo, hi + 1)
  {
    SumBounds(u, c, lo, hi);
    var s, w := WeightedSum(u, c, lo, hi), Weight(c, lo, hi);
    var x, k := u[hi], c[hi] as real;
    Scale(u[hi - 1], x, w);
    assert WeightedSum(u, c, lo, hi + 1) == s + x * k;
    assert Weight(c, lo, hi + 1) == w + k;
    MeanStep(s, w, x, k);
  }

  // ---------------------------------------------------------------- merging

  /** The run from `depth` closes at `bis`: it lies at least 5% of the run's average, and at
      least the minimum space, away from the run's first candidate. */
  predicate Closes(u: seq<real>, c: seq<nat>, depth: nat, bis: nat)
    requires Weighted(u, c) && depth < bis < |u|
  {
    Numerics.Abs(u[bis] - u[depth]) >=
      Numerics.Max(Average(u, c, depth, bis) * DepthLevels.AverageThreshold, DepthLevels.MinimumSpace)
  }

  /** Where the run from `depth` ends, searching from `bis`: the first candidate that closes
      it, or the last candidate. */
  function RunEnd(u: seq<real>, c: seq<nat>, depth: nat, bis: nat): (e: nat)
    requires Weighted(u, c) && depth < bis < |u|
    ensures bis <= e < |u|
    ensures forall b :: bis <= b < e ==> !Closes(u, c, depth, b)
    decreases |u| - bis
  {
    if bis == |u| - 1 || Closes(u, c, depth, bis) then bis else RunEnd(u, c, depth, bis + 1)
  }

  /** The merged levels from `depth` on: one average per run; the last candidate starts no
      run. */
  function MergeFrom(u: seq<real>, c: seq<nat>, depth: nat): (r: seq<real>)
    requires Weighted(u, c)
    decreases |u| - depth
  {
    if depth + 1 >= |u| then []
    else
      var e := RunEnd(u, c, depth, depth + 1);
      [Average(u, c, depth, e)] + MergeFrom(u, c, e)
  }

  /** The merged levels are strictly increasing, at least the run's first candidate and below
      the last candidate, and fewer than the candidates. */
  lemma {:induction false} MergeFromBounds(u: seq<real>, c: seq<nat>, depth: nat)
    requires Weighted(u, c) && depth < |u|
    ensures var r := MergeFrom(u, c, depth);
      IncreasingReals(r) && |r| <= |u| - 1 - depth &&
      forall i :: 0 <= i < |r| ==> u[depth] <= r[i] < u[|u| - 1]
    decreases |u| - depth
  {
    if depth + 1 < |u| {
      var e := RunEnd(u, c, depth, depth + 1);
      var a := Average(u, c, depth, e);
      var rest := MergeFrom(u, c, e);
      MergeFromBounds(u, c, e);
      assert a <= u[e - 1] < u[e];
      assert u[e - 1] < u[|u| - 1];
      var r := [a] + rest;
      assert forall i :: 1 <= i < |r| ==> r[i] == rest[i - 1];
    }
  }

  /** The first candidate of a run lies in the window of the run's average. */
  lemma {:induction false} RunStartInWindow(u: seq<real>, c: seq<nat>, depth: nat)
    requires Weighted(u, c) && depth + 1 < |u|
    ensures DepthLevels.InWindow(u[depth], Average(u, c, depth, RunEnd(u, c, depth, depth + 1)))
  {
    var e := RunEnd(u, c, depth, depth + 1);
    var level := Average(u, c, depth, e);
    if e == depth + 1 {
      assert level == u[depth];
      DepthLevels.LevelInOwnWindow(level);
    } else {
      var b := e - 1;
      assert !Closes(u, c, depth, b);
      AverageGrows(u, c, depth, b);
      var m := Numerics.Max(Average(u, c, depth, b) * DepthLevels.AverageThreshold, DepthLevels.MinimumSpace);
      assert u[b] - u[depth] < m;
      assert m <= Numerics.Max(Numerics.Abs(level) * DepthLevels.AverageThreshold, DepthLevels.MinimumSpace);
      assert Numerics.Abs(u[depth] - level) <= u[b] - u[depth];
    }
  }

  /** Some candidate from index `from` on lies in the window of `level`. */
  predicate HasCandidate(u: seq<real>, from: nat, level: real) {
    exists j :: from <= j < |u| && DepthLevels.InWindow(u[j], level)
  }

  /** Every merged level holds one of the candidates in its window. */
  lemma {:induction false} MergeFromInWindow(u: seq<real>, c: seq<nat>, depth: nat)
    requires Weighted(u, c)
    ensures forall i :: 0 <= i < |MergeFrom(u, c, depth)| ==> HasCandidate(u, depth, MergeFrom(u, c, depth)[i])
    decreases |u| - depth
  {
    if depth + 1 < |u| {
      var e := RunEnd(u, c, depth, depth + 1);
      var rest := MergeFrom(u, c, e);
      var r := [Average(u, c, depth, e)] + rest;
      RunStartInWindow(u, c, depth);
      MergeFromInWindow(u, c, e);
      forall i | 0 <= i < |r|
        ensures HasCandidate(u, depth, r[i])
      {
        if i == 0 {
          assert DepthLevels.InWindow(u[depth], r[0]);
        } else {
          assert r[i] == rest[i - 1];
          assert HasCandidate(u, e, rest[i - 1]);
          var j :| e <= j < |u| && DepthLevels.InWindow(u[j], rest[i - 1]);
          assert depth <= j;
        }
      }
    }
  }

  /** The merging loop: each run is scanned until a candidate closes it, and its average is
      appended. */
  method Merge(u: seq<real>, c: seq<nat>) returns (out: seq<real>)
    requires Weighted(u, c)
    ensures out == MergeFrom(u, c, 0)
  {
    out := [];
    var depth := 0;
    while depth + 1 < |u|
      invariant depth < |u| || depth == 0
      invariant out + MergeFrom(u, c, depth) == MergeFrom(u, c, 0)
      decreases |u| - depth
    {
      var bis, rounded := ScanRun(u, c, depth);
      MergeStep(out, u, c, depth);
      out := out + [rounded];
      depth := bis;
    }
  }

  /** The merged levels from `depth` on are the average of the run from `depth`, then the
      merged levels from the run's end. */
  lemma {:induction false} MergeStep(out: seq<real>, u: seq<real>, c: seq<nat>, depth: nat)
    requires Weighted(u, c) && depth + 1 < |u|
    ensures var e := RunEnd(u, c, depth, depth + 1);
      out + MergeFrom(u, c, depth) == (out + [Average(u, c, depth, e)]) + MergeFrom(u, c, e)
  {
    var e := RunEnd(u, c, depth, depth + 1);
    assert MergeFrom(u, c, depth) == [Average(u, c, depth, e)] + MergeFrom(u, c, e);
  }

  /** The scan of one run: from the next candidate on until one closes it, or the last; with
      the run's average. */
  method ScanRun(u: seq<real>, c: seq<nat>, depth: nat) returns (bis: nat, rounded: real)
    requires Weighted(u, c) && depth + 1 < |u|
    ensures bis == RunEnd(u, c, depth, depth + 1) && rounded == Average(u, c, depth, bis)
  {
    bis := depth + 1;
    rounded := Average(u, c, depth, bis);
    while !Closes(u, c, depth, bis) && bis < |u| - 1
      invariant depth < bis < |u|
      invariant rounded == Average(u, c, depth, bis)
      invariant RunEnd(u, c, depth, bis) == RunEnd(u, c, depth, depth + 1)
      decreases |u| - bis
    {
      bis := bis + 1;
      rounded := Average(u, c, depth, bis);
    }
  }

  /** Candidates 1.0, 1.01, 1.02 and 50.0, one sample each, merge into the single level 1.01:
      the first three form a run that the last candidate closes, and the last candidate never
      starts a run of its own. */
  lemma {:induction false} MergeDropsLastCandidate()
    ensures MergeFrom([1.0, 1.01, 1.02, 50.0], [1, 1, 1, 1], 0) == [1.01]
  {
    var u, c := [1.0, 1.01, 1.02, 50.0], [1, 1, 1, 1];
    assert Weighted(u, c);
    assert Average(u, c, 0, 1) == 1.0;
    assert !Closes(u, c, 0, 1);
    assert WeightedSum(u, c, 0, 2) == 2.01 && Weight(c, 0, 2) == 2.0;
    assert !Closes(u, c, 0, 2);
    assert RunEnd(u, c, 0, 1) == 3;
    assert WeightedSum(u, c, 0, 3) == 3.03 && Weight(c, 0, 3) == 3.0;
    assert Average(u, c, 0, 3) == 1.01;
  }
}
