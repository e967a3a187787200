/** The spike test of the gross quality check: every sample of a depth level is compared
    with its index neighbours at offsets 1, 2 and 3 on either side. The neighbourhood
    maximum, minimum, sum and count are gathered offset by offset into per-sample
    accumulators; a sample is a spike when all six neighbours are present and it lies further
    from their mean than twice their range. */
module SpikeTest {
  import opened Wrappers
  import Numerics
  import Series

  const NeighbourhoodPoints: nat := 3
  const RangeMultiplier: real := 2.0

  /** What a sample has gathered from its neighbours: the masked maximum and minimum, and
      the sum and number of the unmasked neighbours. */
  datatype Acc = Acc(max: Option<real>, min: Option<real>, sum: real, count: nat)

  const Empty: Acc := Acc(None, None, 0.0, 0)

  /** `np.ma.max` of a masked accumulator and a value. */
  function MaxWith(m: Option<real>, v: real): (r: real)
    ensures r >= v && (m.Some? ==> r >= m.value)
    ensures r == v || (m.Some? && r == m.value)
  {
    if m.Some? then Numerics.Max(m.value, v) else v
  }

  function MinWith(m: Option<real>, v: real): (r: real)
    ensures r <= v && (m.Some? ==> r <= m.value)
    ensures r == v || (m.Some? && r == m.value)
  {
    if m.Some? then Numerics.Min(m.value, v) else v
  }

  /** One neighbour taken into an accumulator; a masked neighbour leaves it as it is. */
  function Absorb(a: Acc, x: Option<real>): (b: Acc)
    ensures x.None? ==> b == a
    ensures x.Some? ==> b.count == a.count + 1 && b.sum == a.sum + x.value
    ensures x.Some? ==> b.max == Some(MaxWith(a.max, x.value)) && b.min == Some(MinWith(a.min, x.value))
  {
    if x.None? then a
    else Acc(Some(MaxWith(a.max, x.value)), Some(MinWith(a.min, x.value)), a.sum + x.value, a.count + 1)
  }

  /** The accumulator after taking the values of `s` in order. */
  function Gather(s: seq<Option<real>>): (a: Acc)
    ensures a.min.Some? == a.max.Some? && (a.max.Some? <==> a.count > 0)
  {
    if s == [] then Empty else Absorb(Gather(s[..|s| - 1]), s[|s| - 1])
  }

  /** The neighbour at offset `p` after sample `i`, when there is one. */
  function After(x: seq<Option<real>>, i: nat, p: nat): (r: seq<Option<real>>)
    ensures |r| <= 1
  {
    if i + p < |x| then [x[i + p]] else []
  }

  /** The neighbour at offset `p` before sample `i`, when there is one. */
  function Before(x: seq<Option<real>>, i: nat, p: nat): (r: seq<Option<real>>)
    ensures |r| <= 1
  {
    if p <= i && i - p < |x| then [x[i - p]] else []
  }

  /** The neighbours of sample `i` at offsets 1 to `k`, in the order the accumulators take
      them: for each offset, first the one after and then the one before. */
  function Neighbours(x: seq<Option<real>>, i: nat, k: nat): (r: seq<Option<real>>)
    ensures |r| <= 2 * k
    decreases k
  {
    if k == 0 then [] else Neighbours(x, i, k - 1) + After(x, i, k) + Before(x, i, k)
  }

  /** The spike criterion on a sample and what it gathered: the sample is unmasked, it has
      at least six unmasked neighbours, and its distance from their mean exceeds twice the
      spread between their maximum and minimum. */
  predicate Spike(v: Option<real>, a: Acc) {
    v.Some? && a.count >= 2 * NeighbourhoodPoints && a.max.Some? && a.min.Some? &&
    Numerics.Abs(v.value - a.sum / a.count as real) > RangeMultiplier * (a.max.value - a.min.value)
  }

  /** The samples of `x` the spike test rejects. */
  function Spikes(x: seq<Option<real>>): (r: seq<bool>)
    ensures |r| == |x|
  {
    seq(|x|, i requires 0 <= i < |x| => Spike(x[i], Gather(Neighbours(x, i, NeighbourhoodPoints))))
  }

  /** The accumulators of every sample with the neighbour at offset `p` after it taken in. */
  function TakeAfter(acc: seq<Acc>, x: seq<Option<real>>, p: nat): (r: seq<Acc>)
    requires |acc| == |x|
    ensures |r| == |x|
    ensures forall i :: 0 <= i < |x| ==> r[i] == (if i + p < |x| then Absorb(acc[i], x[i + p]) else acc[i])
  {
    seq(|x|, i requires 0 <= i < |x| => if i + p < |x| then Absorb(acc[i], x[i + p]) else acc[i])
  }

  /** The accumulators of every sample with the neighbour at offset `p` before it taken in. */
  function TakeBefore(acc: seq<Acc>, x: seq<Option<real>>, p: nat): (r: seq<Acc>)
    requires |acc| == |x|
    ensures |r| == |x|
    ensures forall i :: 0 <= i < |x| ==> r[i] == (if p <= i then Absorb(acc[i], x[i - p]) else acc[i])
  {
    seq(|x|, i requires 0 <= i < |x| => if p <= i then Absorb(acc[i], x[i - p]) else acc[i])
  }

  /** What every sample has gathered from its neighbours at offsets 1 to `k`. */
  function Gathered(x: seq<Option<real>>, k: nat): (r: seq<Acc>)
    ensures |r| == |x|
    ensures forall i :: 0 <= i < |x| ==> r[i] == Gather(Neighbours(x, i, k))
  {
    seq(|x|, i requires 0 <= i < |x| => Gather(Neighbours(x, i, k)))
  }

  /** numpy's `acc[:-p] = max(acc[:-p], x[p:])`, in place. */
  method AbsorbAfter(acc: array<Acc>, x: seq<Option<real>>, p: nat)
    requires acc.Length == |x|
    modifies acc
    ensures acc[..] == TakeAfter(old(acc[..]), x, p)
  {
    forall i | 0 <= i < acc.Length && i + p < |x| {
      acc[i] := Absorb(acc[i], x[i + p]);
    }
  }

  /** numpy's `acc[p:] = max(acc[p:], x[:-p])`, in place. */
  method AbsorbBefore(acc: array<Acc>, x: seq<Option<real>>, p: nat)
    requires acc.Length == |x|
    modifies acc
    ensures acc[..] == TakeBefore(old(acc[..]), x, p)
  {
    forall i | p <= i < acc.Length {
      acc[i] := Absorb(acc[i], x[i - p]);
    }
  }

  /** One more offset taken into what a sample has gathered. */
  lemma {:induction false} GatherStep(x: seq<Option<real>>, i: nat, k: nat)
    requires i < |x|
    ensures Gather(Neighbours(x, i, k + 1)) ==
      (var a := if i + k + 1 < |x| then Absorb(Gather(Neighbours(x, i, k)), x[i + k + 1]) else Gather(Neighbours(x, i, k));
       if k + 1 <= i then Absorb(a, x[i - k - 1]) else a)
  {
    var n := Neighbours(x, i, k);
    var f := After(x, i, k + 1);
    var b := Before(x, i, k + 1);
    assert Neighbours(x, i, k + 1) == n + f + b;
    if f != [] {
      assert (n + f)[..|n + f| - 1] == n;
    } else {
      assert n + f == n;
    }
    if b != [] {
      assert (n + f + b)[..|n + f + b| - 1] == n + f;
    } else {
      assert n + f + b == n + f;
    }
  }

  /** Taking in the neighbours at one more offset, after and then before, extends what every
      sample has gathered by that offset. */
  lemma {:induction false} GatheredStep(x: seq<Option<real>>, k: nat)
    ensures TakeBefore(TakeAfter(Gathered(x, k), x, k + 1), x, k + 1) == Gathered(x, k + 1)
  {
    var l := TakeBefore(TakeAfter(Gathered(x, k), x, k + 1), x, k + 1);
    var r := Gathered(x, k + 1);
    forall i | 0 <= i < |x|
      ensures l[i] == r[i]
    {
      GatherStep(x, i, k);
    }
  }

  /** The spike test on one depth level: the accumulators start empty and take, offset by
      offset, the neighbour after and the neighbour before; then every sample is judged on
      what it gathered. */
  method SpikeLevel(x: seq<Option<real>>) returns (rejected: seq<bool>)
    ensures rejected == Spikes(x)
  {
    var gathered := GatherLevel(x);
    rejected := seq(|x|, i requires 0 <= i < |x| => Spike(x[i], gathered[i]));
  }

  /** The accumulators of a level, started empty and taking offset by offset the neighbour
      after and the neighbour before every sample. */
  method GatherLevel(x: seq<Option<real>>) returns (gathered: seq<Acc>)
    ensures gathered == Gathered(x, NeighbourhoodPoints)
  {
    var acc := new Acc[|x|](_ => Empty);
    assert acc[..] == Gathered(x, 0);
    var point := 1;
    while point <= NeighbourhoodPoints
      invariant 1 <= point <= NeighbourhoodPoints + 1
      invariant acc[..] == Gathered(x, point - 1)
    {
      AbsorbAfter(acc, x, point);
      AbsorbBefore(acc, x, point);
      GatheredStep(x, point - 1);
      point := point + 1;
    }
    gathered := acc[..];
  }

  // The accumulators against plain masked statistics.

  /** The count gathered is the number of unmasked values and the sum is their sum. */
  lemma {:induction false} GatherCountSum(s: seq<Option<real>>)
    ensures Gather(s).count == Series.CountValid(s)
    ensures Gather(s).sum == Series.SumValid(s)
  {
    if s != [] {
      GatherCountSum(s[..|s| - 1]);
    }
  }

  /** The maximum and minimum gathered are present exactly when some value is, and bound
      every unmasked value of `s`. */
  lemma {:induction false} GatherBounds(s: seq<Option<real>>)
    ensures Gather(s).max.Some? <==> exists j :: 0 <= j < |s| && s[j].Some?
    ensures Gather(s).min.Some? <==> Gather(s).max.Some?
    ensures forall j :: 0 <= j < |s| && s[j].Some? ==> Gather(s).min.value <= s[j].value <= Gather(s).max.value
  {
    if s != [] {
      var init := s[..|s| - 1];
      GatherBounds(init);
      assert forall j :: 0 <= j < |init| ==> init[j] == s[j];
      if !exists j :: 0 <= j < |init| && init[j].Some? {
        assert forall j :: 0 <= j < |s| - 1 ==> s[j].None?;
      }
    }
  }

  /** The sum of an accumulator lies between its count times its minimum and its count
      times its maximum. */
  predicate Balanced(a: Acc) {
    a.min.Some? == a.max.Some? && (a.max.None? ==> a.count == 0 && a.sum == 0.0) &&
    (a.max.Some? ==> a.count as real * a.min.value <= a.sum <= a.count as real * a.max.value)
  }

  lemma {:induction false} ScaleLe(n: real, a: real, b: real)
    requires n >= 0.0 && a <= b
    ensures n * a <= n * b
  {
  }

  /** Bounds `n * lo0 <= s <= n * hi0` widen to one more value between `lo` and `hi`. */
  lemma {:induction false} WidenBounds(n: real, s: real, lo0: real, hi0: real, lo: real, hi: real, v: real)
    requires n >= 0.0 && n * lo0 <= s <= n * hi0
    requires lo <= lo0 && lo <= v && hi0 <= hi && v <= hi
    ensures (n + 1.0) * lo <= s + v <= (n + 1.0) * hi
  {
    ScaleLe(n, lo, lo0);
    ScaleLe(n, hi0, hi);
    assert (n + 1.0) * lo == n * lo + lo;
    assert (n + 1.0) * hi == n * hi + hi;
  }

  /** Taking in one more value keeps an accumulator balanced. */
  lemma {:induction false} AbsorbBalanced(a: Acc, x: Option<real>)
    requires Balanced(a)
    ensures Balanced(Absorb(a, x))
  {
    if x.Some? && a.max.Some? {
      var n := a.count as real;
      var b := Absorb(a, x);
      WidenBounds(n, a.sum, a.min.value, a.max.value, b.min.value, b.max.value, x.value);
      assert b.count as real == n + 1.0;
    } else if x.Some? {
      var b := Absorb(a, x);
      assert b == Acc(Some(x.value), Some(x.value), x.value, 1);
      assert 1 as real * x.value == x.value;
    }
  }

  /** Every accumulator gathered from a list is balanced. */
  lemma {:induction false} GatherSumBetween(s: seq<Option<real>>)
    ensures Balanced(Gather(s))
  {
    if s != [] {
      GatherSumBetween(s[..|s| - 1]);
      AbsorbBalanced(Gather(s[..|s| - 1]), s[|s| - 1]);
    }
  }

  /** The mean of a balanced, non-empty accumulator lies between its minimum and maximum. */
  lemma {:induction false} MeanBetween(a: Acc)
    requires Balanced(a) && a.count > 0
    ensures a.max.Some? && a.min.value <= a.sum / a.count as real <= a.max.value
  {
    var n := a.count as real;
    var mean := a.sum / n;
    assert a.sum == n * mean;
    ScaleLeInverse(n, a.min.value, mean);
    ScaleLeInverse(n, mean, a.max.value);
  }

  lemma {:induction false} ScaleLeInverse(n: real, a: real, b: real)
    requires n > 0.0 && n * a <= n * b
    ensures a <= b
  {
  }

  /** When all entries count, every entry is present. */
  lemma {:induction false} FullCountAllPresent(s: seq<Option<real>>)
    requires Series.CountValid(s) >= |s|
    ensures forall j :: 0 <= j < |s| ==> s[j].Some?
  {
    if s != [] {
      var init := s[..|s| - 1];
      FullCountAllPresent(init);
      assert forall j :: 0 <= j < |init| ==> init[j] == s[j];
    }
  }

  /** Sample `i` has neighbours at every offset up to `k` exactly when it is at least `k`
      records away from both ends. */
  lemma {:induction false} NeighboursLength(x: seq<Option<real>>, i: nat, k: nat)
    requires i < |x|
    ensures |Neighbours(x, i, k)| == 2 * k <==> k <= i && i + k < |x|
    decreases k
  {
    if k > 0 {
      NeighboursLength(x, i, k - 1);
    }
  }

  /** Every neighbour gathered is a sample at an offset of 1 to `k` from `i`, and every such
      offset inside the level is gathered. */
  lemma {:induction false} NeighboursAre(x: seq<Option<real>>, i: nat, k: nat)
    requires i < |x|
    ensures forall e :: e in Neighbours(x, i, k) ==> exists j :: 0 <= j < |x| && j != i && i - k <= j <= i + k && x[j] == e
    ensures forall j :: 0 <= j < |x| && j != i && i - k <= j <= i + k ==> x[j] in Neighbours(x, i, k)
  {
    NeighboursWithin(x, i, k);
    NeighboursCover(x, i, k);
  }

  lemma {:induction false} NeighboursWithin(x: seq<Option<real>>, i: nat, k: nat)
    requires i < |x|
    ensures forall e :: e in Neighbours(x, i, k) ==> exists j :: 0 <= j < |x| && j != i && i - k <= j <= i + k && x[j] == e
    decreases k
  {
    if k > 0 {
      NeighboursWithin(x, i, k - 1);
      var m := Neighbours(x, i, k - 1);
      var after := After(x, i, k);
      var before := Before(x, i, k);
      assert Neighbours(x, i, k) == m + after + before;
      forall e | e in m + after + before
        ensures exists j :: 0 <= j < |x| && j != i && i - k <= j <= i + k && x[j] == e
      {
        if e in m {
          var j :| 0 <= j < |x| && j != i && i - (k - 1) <= j <= i + (k - 1) && x[j] == e;
          assert i - k <= j <= i + k;
        } else if e in after {
          assert x[i + k] == e;
        } else {
          assert e in before;
          assert x[i - k] == e;
        }
      }
    }
  }

  lemma {:induction false} NeighboursCover(x: seq<Option<real>>, i: nat, k: nat)
    requires i < |x|
    ensures forall j :: 0 <= j < |x| && j != i && i - k <= j <= i + k ==> x[j] in Neighbours(x, i, k)
    decreases k
  {
    if k > 0 {
      NeighboursCover(x, i, k - 1);
      var m := Neighbours(x, i, k - 1);
      var after := After(x, i, k);
      var before := Before(x, i, k);
      assert Neighbours(x, i, k) == m + after + before;
      forall j | 0 <= j < |x| && j != i && i - k <= j <= i + k
        ensures x[j] in m + after + before
      {
        if j == i + k {
          assert after == [x[j]];
        } else if j == i - k {
          assert before == [x[j]];
        } else {
          assert x[j] in m;
        }
      }
    }
  }

  // The properties of the test.

  /** A rejected sample is unmasked, is at least three records from either end of its level,
      and has all six neighbours unmasked. */
  lemma {:induction false} SpikeNeedsSixNeighbours(x: seq<Option<real>>, i: nat)
    requires i < |x| && Spikes(x)[i]
    ensures x[i].Some?
    ensures NeighbourhoodPoints <= i && i + NeighbourhoodPoints < |x|
    ensures forall j :: 0 <= j < |x| && j != i && i - NeighbourhoodPoints <= j <= i + NeighbourhoodPoints ==> x[j].Some?
  {
    var n := Neighbours(x, i, NeighbourhoodPoints);
    assert Spike(x[i], Gather(n));
    GatherCountSum(n);
    SixValidNeighbours(x, i);
  }

  /** A sample with six unmasked neighbours has all of them, every one unmasked. */
  lemma {:induction false} SixValidNeighbours(x: seq<Option<real>>, i: nat)
    requires i < |x| && Series.CountValid(Neighbours(x, i, NeighbourhoodPoints)) >= 2 * NeighbourhoodPoints
    ensures NeighbourhoodPoints <= i && i + NeighbourhoodPoints < |x|
    ensures forall j :: 0 <= j < |x| && j != i && i - NeighbourhoodPoints <= j <= i + NeighbourhoodPoints ==> x[j].Some?
  {
    var n := Neighbours(x, i, NeighbourhoodPoints);
    NeighboursLength(x, i, NeighbourhoodPoints);
    FullCountAllPresent(n);
    NeighboursCover(x, i, NeighbourhoodPoints);
  }

  /** The first and the last three records of a level are never spikes. */
  lemma {:induction false} EdgesNeverSpike(x: seq<Option<real>>, i: nat)
    requires i < |x| && (i < NeighbourhoodPoints || |x| - NeighbourhoodPoints <= i)
    ensures !Spikes(x)[i]
  {
    if Spikes(x)[i] {
      SpikeNeedsSixNeighbours(x, i);
    }
  }

  /** A sample within the range of its neighbours is never a spike, since their mean lies in
      that range too. */
  lemma {:induction false} WithinNeighboursNotSpike(x: seq<Option<real>>, i: nat)
    requires i < |x| && x[i].Some?
    requires var a := Gather(Neighbours(x, i, NeighbourhoodPoints));
      a.max.Some? && a.min.value <= x[i].value <= a.max.value
    ensures !Spikes(x)[i]
  {
    var a := Gather(Neighbours(x, i, NeighbourhoodPoints));
    GatherSumBetween(Neighbours(x, i, NeighbourhoodPoints));
    if a.count > 0 {
      MeanBetween(a);
      var mean := a.sum / a.count as real;
      assert Numerics.Abs(x[i].value - mean) <= a.max.value - a.min.value;
    }
  }

  /** A level that holds the same value everywhere except at one sample that is at least
      three records from both ends: the spike test rejects that sample and no other. */
  lemma {:induction false} SingleOutlierRejected(x: seq<Option<real>>, c: real, o: nat, j: nat)
    requires NeighbourhoodPoints <= o && o + NeighbourhoodPoints < |x| && j < |x|
    requires x[o].Some? && x[o].value != c
    requires forall t :: 0 <= t < |x| && t != o ==> x[t] == Some(c)
    ensures Spikes(x)[j] <==> j == o
  {
    if j == o {
      OutlierIsSpike(x, c, o);
    } else if j < NeighbourhoodPoints || j + NeighbourhoodPoints >= |x| {
      EdgesNeverSpike(x, j);
    } else {
      var n := Neighbours(x, j, NeighbourhoodPoints);
      NeighboursAre(x, j, NeighbourhoodPoints);
      GatherBounds(n);
      var k := if j + 1 != o then j + 1 else j - 1;
      assert x[k] == Some(c) && x[k] in n;
      var m :| 0 <= m < |n| && n[m] == x[k];
      WithinNeighboursNotSpike(x, j);
    }
  }

  /** A sample whose six neighbours all hold another value `c` is a spike. */
  lemma {:induction false} OutlierIsSpike(x: seq<Option<real>>, c: real, o: nat)
    requires NeighbourhoodPoints <= o && o + NeighbourhoodPoints < |x|
    requires x[o].Some? && x[o].value != c
    requires forall t :: 0 <= t < |x| && t != o ==> x[t] == Some(c)
    ensures Spikes(x)[o]
  {
    var n := Neighbours(x, o, NeighbourhoodPoints);
    OutlierNeighbours(x, c, o);
    GatherConstant(n, c);
    var a := Gather(n);
    assert a == Acc(Some(c), Some(c), 6 as real * c, 6);
    Series.DivideProduct(6 as real, c);
    assert a.sum / a.count as real == c;
    assert Numerics.Abs(x[o].value - c) > 0.0;
    assert Spike(x[o], a);
  }

  /** The six neighbours of such a sample all hold `c`. */
  lemma {:induction false} OutlierNeighbours(x: seq<Option<real>>, c: real, o: nat)
    requires NeighbourhoodPoints <= o && o + NeighbourhoodPoints < |x|
    requires forall t :: 0 <= t < |x| && t != o ==> x[t] == Some(c)
    ensures var n := Neighbours(x, o, NeighbourhoodPoints);
      |n| == 6 && forall t :: 0 <= t < |n| ==> n[t] == Some(c)
  {
    var n := Neighbours(x, o, NeighbourhoodPoints);
    NeighboursWithin(x, o, NeighbourhoodPoints);
    forall t | 0 <= t < |n|
      ensures n[t] == Some(c)
    {
      assert n[t] in n;
    }
    NeighboursLength(x, o, NeighbourhoodPoints);
  }

  /** What is gathered from a non-empty list that holds `c` everywhere. */
  lemma {:induction false} GatherConstant(s: seq<Option<real>>, c: real)
    requires forall t :: 0 <= t < |s| ==> s[t] == Some(c)
    ensures s != [] ==> Gather(s) == Acc(Some(c), Some(c), |s| as real * c, |s|)
  {
    if |s| > 1 {
      var init := s[..|s| - 1];
      GatherConstant(init, c);
      assert (|init| + 1) as real * c == |init| as real * c + c;
    } else if |s| == 1 {
      assert s[..0] == [];
    }
  }

  /** The maximum and minimum gathered are values of `s`. */
  lemma {:induction false} GatherAttained(s: seq<Option<real>>)
    ensures Gather(s).max.Some? ==> exists m :: 0 <= m < |s| && s[m] == Gather(s).max
    ensures Gather(s).min.Some? ==> exists m :: 0 <= m < |s| && s[m] == Gather(s).min
  {
    if s != [] {
      var init := s[..|s| - 1];
      GatherAttained(init);
      assert forall j :: 0 <= j < |init| ==> init[j] == s[j];
    }
  }

  /** When every entry is present, all of them count. */
  lemma {:induction false} CountAllPresent(s: seq<Option<real>>)
    requires forall t :: 0 <= t < |s| ==> s[t].Some?
    ensures Series.CountValid(s) == |s|
  {
    if s != [] {
      var init := s[..|s| - 1];
      assert forall j :: 0 <= j < |init| ==> init[j] == s[j];
      CountAllPresent(init);
    }
  }
}
