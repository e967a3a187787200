/** The stuck-value test of the gross quality check, on one depth level: the distinct raw
    values of the level, in increasing order and without the fill value, are counted; a value
    is stuck when it occurs more than 100 times and more than five times as often as any of
    the up to 100 distinct values on either side of it. For temperature from an ISPRA
    platform the value 20.0 is stuck whenever it occurs. Every sample holding a stuck value
    is rejected. */
module StuckTest {
  import opened Wrappers
  import Sorting

  const Fill: real := 1.0e20
  const MinimumCount: nat := 100
  const NeighbourhoodPoints: nat := 100
  const CountMultiplier: nat := 5
  const IspraValue: real := 20.0

  /** The raw value stored for a sample: its value, or the fill value where it is masked. */
  function Raw(v: Option<real>): (r: real)
    ensures v.None? ==> r == Fill
  {
    if v.Some? then v.value else Fill
  }

  function RawLevel(x: seq<Option<real>>): (r: seq<real>)
    ensures |r| == |x| && forall t :: 0 <= t < |x| ==> r[t] == Raw(x[t])
  {
    seq(|x|, t requires 0 <= t < |x| => Raw(x[t]))
  }

  /** The entries of `s` other than the fill value. */
  function WithoutFill(s: seq<real>): (r: seq<real>)
    ensures forall y :: y in r <==> y in s && y != Fill
  {
    if s == [] then []
    else if s[|s| - 1] == Fill then WithoutFill(s[..|s| - 1])
    else WithoutFill(s[..|s| - 1]) + [s[|s| - 1]]
  }

  /** `np.unique` on the raw values of a level with the fill value deleted. */
  function Values(x: seq<Option<real>>): (r: seq<real>)
    ensures Sorting.IncreasingReals(r)
    ensures forall y :: y in r <==> y in RawLevel(x) && y != Fill
  {
    Sorting.SortedDistinct(WithoutFill(RawLevel(x)))
  }

  /** How many samples of the level hold each distinct value. */
  function Counts(x: seq<Option<real>>): (c: seq<nat>)
    ensures |c| == |Values(x)|
    ensures forall i :: 0 <= i < |c| ==> c[i] == multiset(RawLevel(x))[Values(x)[i]]
  {
    var v := Values(x);
    seq(|v|, i requires 0 <= i < |v| => multiset(RawLevel(x))[v[i]])
  }

  function MaxNat(a: nat, b: nat): (r: nat)
    ensures r >= a && r >= b && (r == a || r == b)
  {
    if a >= b then a else b
  }

  /** The largest count among the distinct values at offsets 1 to `k` from the `i`-th, taken
      offset by offset, after and then before; zero when there is none. */
  function WindowMax(c: seq<nat>, i: nat, k: nat): (m: nat)
    decreases k
  {
    if k == 0 then 0
    else
      var a := if i + k < |c| then MaxNat(WindowMax(c, i, k - 1), c[i + k]) else WindowMax(c, i, k - 1);
      if k <= i && i - k < |c| then MaxNat(a, c[i - k]) else a
  }

  /** The neighbourhood maxima of every distinct value after `k` offsets. */
  function WindowMaxima(c: seq<nat>, k: nat): (r: seq<nat>)
    ensures |r| == |c| && forall i :: 0 <= i < |c| ==> r[i] == WindowMax(c, i, k)
  {
    seq(|c|, i requires 0 <= i < |c| => WindowMax(c, i, k))
  }

  /** numpy's `m[:-p] = maximum(m[:-p], c[p:])`. */
  function MaxAfter(m: seq<nat>, c: seq<nat>, p: nat): (r: seq<nat>)
    requires |m| == |c|
    ensures |r| == |c| && forall i :: 0 <= i < |c| ==> r[i] == (if i + p < |c| then MaxNat(m[i], c[i + p]) else m[i])
  {
    seq(|c|, i requires 0 <= i < |c| => if i + p < |c| then MaxNat(m[i], c[i + p]) else m[i])
  }

  /** numpy's `m[p:] = maximum(m[p:], c[:-p])`. */
  function MaxBefore(m: seq<nat>, c: seq<nat>, p: nat): (r: seq<nat>)
    requires |m| == |c|
    ensures |r| == |c| && forall i :: 0 <= i < |c| ==> r[i] == (if p <= i then MaxNat(m[i], c[i - p]) else m[i])
  {
    seq(|c|, i requires 0 <= i < |c| => if p <= i then MaxNat(m[i], c[i - p]) else m[i])
  }

  method RaiseAfter(m: array<nat>, c: seq<nat>, p: nat)
    requires m.Length == |c|
    modifies m
    ensures m[..] == MaxAfter(old(m[..]), c, p)
  {
    forall i | 0 <= i < m.Length && i + p < |c| {
      m[i] := MaxNat(m[i], c[i + p]);
    }
  }

  method RaiseBefore(m: array<nat>, c: seq<nat>, p: nat)
    requires m.Length == |c|
    modifies m
    ensures m[..] == MaxBefore(old(m[..]), c, p)
  {
    forall i | p <= i < m.Length {
      m[i] := MaxNat(m[i], c[i - p]);
    }
  }

  lemma {:induction false} WindowMaximaStep(c: seq<nat>, k: nat)
    ensures MaxBefore(MaxAfter(WindowMaxima(c, k), c, k + 1), c, k + 1) == WindowMaxima(c, k + 1)
  {
    var l := MaxBefore(MaxAfter(WindowMaxima(c, k), c, k + 1), c, k + 1);
    var r := WindowMaxima(c, k + 1);
    assert forall i :: 0 <= i < |c| ==> l[i] == r[i];
  }

  /** The neighbourhood maxima, computed in place offset by offset from an array of zeros. */
  method NeighbourhoodMaxima(c: seq<nat>) returns (m: seq<nat>)
    ensures m == WindowMaxima(c, NeighbourhoodPoints)
  {
    var a := new nat[|c|](_ => 0);
    assert a[..] == WindowMaxima(c, 0);
    var point := 1;
    while point <= NeighbourhoodPoints
      invariant 1 <= point <= NeighbourhoodPoints + 1
      invariant a[..] == WindowMaxima(c, point - 1)
    {
      RaiseAfter(a, c, point);
      RaiseBefore(a, c, point);
      WindowMaximaStep(c, point - 1);
      point := point + 1;
    }
    m := a[..];
  }

  /** The stuck criterion on the `i`-th distinct value and its neighbourhood maximum. */
  predicate Stuck(count: nat, neighbourhood: nat) {
    count > MinimumCount && count > CountMultiplier * neighbourhood
  }

  /** The distinct values whose counts are stuck, in increasing order. */
  function StuckOf(v: seq<real>, c: seq<nat>, m: seq<nat>): (r: seq<real>)
    requires |v| == |c| == |m|
    ensures forall y :: y in r <==> exists i :: 0 <= i < |v| && v[i] == y && Stuck(c[i], m[i])
  {
    if v == [] then []
    else
      var n := |v| - 1;
      var rest := StuckOf(v[..n], c[..n], m[..n]);
      assert forall i :: 0 <= i < n ==> v[..n][i] == v[i] && c[..n][i] == c[i] && m[..n][i] == m[i];
      if Stuck(c[n], m[n]) then rest + [v[n]] else rest
  }

  /** The values the test rejects on a level: the stuck ones, and 20.0 for an ISPRA
      temperature series whenever it occurs. */
  function StuckValues(x: seq<Option<real>>, ispra: bool): (r: seq<real>)
  {
    var v := Values(x);
    var s := StuckOf(v, Counts(x), WindowMaxima(Counts(x), NeighbourhoodPoints));
    if ispra && IspraValue in v && IspraValue !in s then s + [IspraValue] else s
  }

  /** Every sample whose raw value is a rejected value (`np.any(data == stuck_values)`). */
  function StuckMask(x: seq<Option<real>>, ispra: bool): (r: seq<bool>)
    ensures |r| == |x|
  {
    Matching(x, StuckValues(x, ispra))
  }

  /** The samples whose raw value is one of `s`. */
  function Matching(x: seq<Option<real>>, s: seq<real>): (r: seq<bool>)
    ensures |r| == |x| && forall t :: 0 <= t < |x| ==> r[t] == (Raw(x[t]) in s)
  {
    seq(|x|, t requires 0 <= t < |x| => Raw(x[t]) in s)
  }

  /** The stuck-value test on one level. */
  method StuckLevel(x: seq<Option<real>>, ispra: bool) returns (rejected: seq<bool>)
    ensures rejected == StuckMask(x, ispra)
  {
    var v := Values(x);
    var c := Counts(x);
    var m := NeighbourhoodMaxima(c);
    var s := StuckOf(v, c, m);
    if ispra && IspraValue in v && IspraValue !in s {
      s := s + [IspraValue];
    }
    assert s == StuckValues(x, ispra);
    rejected := Matching(x, s);
  }

  // Properties of the neighbourhood maxima.

  /** The neighbourhood maximum bounds the count of every distinct value within `k` places,
      and is either zero or one of those counts. */
  lemma {:induction false} WindowMaxBounds(c: seq<nat>, i: nat, k: nat)
    requires i < |c|
    ensures forall j :: 0 <= j < |c| && j != i && i - k <= j <= i + k ==> c[j] <= WindowMax(c, i, k)
    ensures WindowMax(c, i, k) == 0 || exists j :: 0 <= j < |c| && j != i && i - k <= j <= i + k && c[j] == WindowMax(c, i, k)
    decreases k
  {
    if k > 0 {
      WindowMaxBounds(c, i, k - 1);
      var w := WindowMax(c, i, k);
      var p := WindowMax(c, i, k - 1);
      if w != 0 && w != p {
        if i + k < |c| && w == c[i + k] {
        } else {
          assert k <= i && w == c[i - k];
        }
      }
    }
  }

  /** A distinct value is stuck exactly when it occurs more than 100 times and more than five
      times as often as each distinct value within 100 places of it. */
  lemma {:induction false} StuckIff(c: seq<nat>, i: nat)
    requires i < |c|
    ensures Stuck(c[i], WindowMax(c, i, NeighbourhoodPoints)) <==>
      c[i] > MinimumCount &&
      forall j :: 0 <= j < |c| && j != i && i - NeighbourhoodPoints <= j <= i + NeighbourhoodPoints ==> c[i] > CountMultiplier * c[j]
  {
    WindowMaxBounds(c, i, NeighbourhoodPoints);
  }

  // Properties of the rejection.

  /** `y` is one of the distinct values of the level and its count is stuck. */
  predicate StuckValue(x: seq<Option<real>>, y: real) {
    var v := Values(x);
    var c := Counts(x);
    exists i :: 0 <= i < |v| && v[i] == y && Stuck(c[i], WindowMax(c, i, NeighbourhoodPoints))
  }

  /** A sample is rejected exactly when it is unmasked, its value is not the fill value, and
      that value is stuck or is 20.0 under the ISPRA rule. */
  lemma {:induction false} StuckMaskIff(x: seq<Option<real>>, ispra: bool, t: nat)
    requires t < |x|
    ensures StuckMask(x, ispra)[t] <==>
      x[t].Some? && x[t].value != Fill && (StuckValue(x, x[t].value) || (ispra && x[t].value == IspraValue))
  {
    var v := Values(x);
    var c := Counts(x);
    var m := WindowMaxima(c, NeighbourhoodPoints);
    var s := StuckOf(v, c, m);
    var raw := RawLevel(x);
    var y := Raw(x[t]);
    assert raw[t] == y;
    assert StuckMask(x, ispra)[t] == (y in StuckValues(x, ispra));
    assert y in s <==> StuckValue(x, y);
    if x[t].None? || y == Fill {
      assert y !in v;
      assert y !in s;
    } else if ispra && y == IspraValue {
      assert y in raw;
      assert y in v;
    }
  }

  /** Under the ISPRA rule every sample holding 20.0 is rejected. */
  lemma {:induction false} IspraValueRejected(x: seq<Option<real>>, t: nat)
    requires t < |x| && x[t] == Some(IspraValue)
    ensures StuckMask(x, true)[t]
  {
    StuckMaskIff(x, true, t);
  }

  /** Masked samples are never rejected, and outside the ISPRA rule a rejected value occurs
      more than 100 times in the level. */
  lemma {:induction false} StuckNeedsCount(x: seq<Option<real>>, ispra: bool, t: nat)
    requires t < |x| && StuckMask(x, ispra)[t]
    ensures x[t].Some?
    ensures !(ispra && x[t].value == IspraValue) ==> multiset(RawLevel(x))[x[t].value] > MinimumCount
  {
    StuckMaskIff(x, ispra, t);
  }
}
