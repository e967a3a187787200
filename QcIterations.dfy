/** The iteration scheme of the time-series quality check, independent of what the tests
    are. Iteration `k` runs its tests on the good data left by the iterations before it;
    every rejected sample is masked in the next good data and flagged 4 in the next flags,
    and the flags of the other samples are copied. The tests are a parameter: a function of
    the iteration number and of the good data it starts from, giving one rejection mask per
    depth level. */
module QcIterations {
  import opened Wrappers

  /** One series per depth level; `None` is a masked sample. */
  type Levels = seq<seq<Option<real>>>
  /** One flag series per depth level. */
  type Flags = seq<seq<int>>
  /** The tests of every iteration. */
  type Tests = (nat, Levels) -> seq<seq<bool>>

  const Fill: real := 1.0e20
  const GoodFlag: int := 1
  const BadFlag: int := 4

  /** The tests give one mask per level, as long as the level. */
  ghost predicate ShapePreserving(tests: Tests) {
    forall k: nat, g: Levels :: |tests(k, g)| == |g| && forall d :: 0 <= d < |g| ==> |tests(k, g)[d]| == |g[d]|
  }

  /** The flags before the first iteration: 1 for a valid sample, 4 for a missing one. */
  function InitialFlags(data: Levels): (f: Flags)
    ensures |f| == |data|
    ensures forall d :: 0 <= d < |data| ==> |f[d]| == |data[d]|
    ensures forall d, t :: 0 <= d < |data| && 0 <= t < |data[d]| ==> f[d][t] == (if data[d][t].None? then BadFlag else GoodFlag)
  {
    seq(|data|, d requires 0 <= d < |data| =>
      seq(|data[d]|, t requires 0 <= t < |data[d]| => if data[d][t].None? then BadFlag else GoodFlag))
  }

  /** The good data of the next iteration: rejected samples set to the fill value, and
      every sample holding the fill value masked. */
  function NextGood(good: seq<Option<real>>, rejected: seq<bool>): (r: seq<Option<real>>)
    requires |rejected| == |good|
    ensures |r| == |good|
    ensures forall t :: 0 <= t < |good| ==> r[t] == (if rejected[t] || good[t] == Some(Fill) then None else good[t])
  {
    seq(|good|, t requires 0 <= t < |good| => if rejected[t] || good[t] == Some(Fill) then None else good[t])
  }

  /** The flags of the next iteration: the previous flags with the rejected samples set to 4. */
  function NextFlags(flags: seq<int>, rejected: seq<bool>): (r: seq<int>)
    requires |rejected| == |flags|
    ensures |r| == |flags|
    ensures forall t :: 0 <= t < |flags| ==> r[t] == (if rejected[t] then BadFlag else flags[t])
  {
    seq(|flags|, t requires 0 <= t < |flags| => if rejected[t] then BadFlag else flags[t])
  }

  function NextGoodAll(good: Levels, rejected: seq<seq<bool>>): (r: Levels)
    requires |rejected| == |good| && forall d :: 0 <= d < |good| ==> |rejected[d]| == |good[d]|
    ensures |r| == |good| && forall d :: 0 <= d < |good| ==> r[d] == NextGood(good[d], rejected[d])
  {
    seq(|good|, d requires 0 <= d < |good| => NextGood(good[d], rejected[d]))
  }

  function NextFlagsAll(flags: Flags, rejected: seq<seq<bool>>): (r: Flags)
    requires |rejected| == |flags| && forall d :: 0 <= d < |flags| ==> |rejected[d]| == |flags[d]|
    ensures |r| == |flags| && forall d :: 0 <= d < |flags| ==> r[d] == NextFlags(flags[d], rejected[d])
  {
    seq(|flags|, d requires 0 <= d < |flags| => NextFlags(flags[d], rejected[d]))
  }

  /** The good data after `k` iterations. */
  function GoodAfter(data: Levels, tests: Tests, k: nat): (g: Levels)
    requires ShapePreserving(tests)
    ensures |g| == |data| && forall d :: 0 <= d < |data| ==> |g[d]| == |data[d]|
  {
    if k == 0 then data
    else
      var g := GoodAfter(data, tests, k - 1);
      NextGoodAll(g, tests(k - 1, g))
  }

  /** The flags after `k` iterations. */
  function FlagsAfter(data: Levels, tests: Tests, k: nat): (f: Flags)
    requires ShapePreserving(tests)
    ensures |f| == |data| && forall d :: 0 <= d < |data| ==> |f[d]| == |data[d]|
  {
    if k == 0 then InitialFlags(data)
    else
      var g := GoodAfter(data, tests, k - 1);
      NextFlagsAll(FlagsAfter(data, tests, k - 1), tests(k - 1, g))
  }

  /** The good data before the first iteration and after each of the first `n`. */
  function GoodHistory(data: Levels, tests: Tests, n: nat): (h: seq<Levels>)
    requires ShapePreserving(tests)
    ensures |h| == n + 1
  {
    if n == 0 then [data] else GoodHistory(data, tests, n - 1) + [GoodAfter(data, tests, n)]
  }

  /** The flags before the first iteration and after each of the first `n`. */
  function FlagHistory(data: Levels, tests: Tests, n: nat): (h: seq<Flags>)
    requires ShapePreserving(tests)
    ensures |h| == n + 1
  {
    if n == 0 then [InitialFlags(data)] else FlagHistory(data, tests, n - 1) + [FlagsAfter(data, tests, n)]
  }

  /** Entry `k` of the histories holds the good data and the flags after `k` iterations. */
  lemma {:induction false} HistoryAt(data: Levels, tests: Tests, n: nat, k: nat)
    requires ShapePreserving(tests) && k <= n
    ensures GoodHistory(data, tests, n)[k] == GoodAfter(data, tests, k)
    ensures FlagHistory(data, tests, n)[k] == FlagsAfter(data, tests, k)
  {
    if k < n {
      HistoryAt(data, tests, n - 1, k);
      var g := GoodHistory(data, tests, n - 1);
      var f := FlagHistory(data, tests, n - 1);
      assert GoodHistory(data, tests, n) == g + [GoodAfter(data, tests, n)];
      assert (g + [GoodAfter(data, tests, n)])[k] == g[k];
      assert FlagHistory(data, tests, n) == f + [FlagsAfter(data, tests, n)];
      assert (f + [FlagsAfter(data, tests, n)])[k] == f[k];
    }
  }

  /** One iteration: a flag 4 stays 4, a masked sample stays masked, a sample still good is
      unchanged, and a flag changes exactly where the iteration's tests reject. */
  lemma {:induction false} StepMonotone(data: Levels, tests: Tests, k: nat, d: nat, t: nat)
    requires ShapePreserving(tests) && d < |data| && t < |data[d]|
    ensures FlagsAfter(data, tests, k)[d][t] == BadFlag ==> FlagsAfter(data, tests, k + 1)[d][t] == BadFlag
    ensures GoodAfter(data, tests, k)[d][t].None? ==> GoodAfter(data, tests, k + 1)[d][t].None?
    ensures GoodAfter(data, tests, k + 1)[d][t].Some? ==> GoodAfter(data, tests, k + 1)[d][t] == GoodAfter(data, tests, k)[d][t]
    ensures var g := GoodAfter(data, tests, k);
      FlagsAfter(data, tests, k + 1)[d][t] == (if tests(k, g)[d][t] then BadFlag else FlagsAfter(data, tests, k)[d][t])
    ensures var g := GoodAfter(data, tests, k);
      GoodAfter(data, tests, k + 1)[d][t].None? <==> g[d][t].None? || g[d][t] == Some(Fill) || tests(k, g)[d][t]
  {
    var g := GoodAfter(data, tests, k);
    var rejected := tests(k, g);
    assert GoodAfter(data, tests, k + 1)[d] == NextGood(g[d], rejected[d]);
    assert FlagsAfter(data, tests, k + 1)[d] == NextFlags(FlagsAfter(data, tests, k)[d], rejected[d]);
  }

  /** Over any number of iterations a flag 4 stays 4 and a masked sample stays masked. */
  lemma {:induction false} HistoryMonotone(data: Levels, tests: Tests, j: nat, k: nat, d: nat, t: nat)
    requires ShapePreserving(tests) && j <= k && d < |data| && t < |data[d]|
    ensures FlagsAfter(data, tests, j)[d][t] == BadFlag ==> FlagsAfter(data, tests, k)[d][t] == BadFlag
    ensures GoodAfter(data, tests, j)[d][t].None? ==> GoodAfter(data, tests, k)[d][t].None?
    decreases k - j
  {
    if j < k {
      StepMonotone(data, tests, j, d, t);
      HistoryMonotone(data, tests, j + 1, k, d, t);
    }
  }

  /** The flags and the good data agree at every iteration: every flag is 1 or 4; a sample
      still good is flagged 1 and holds its original value; a sample flagged 1 was valid at
      the start. */
  lemma {:induction false} FlagsAgree(data: Levels, tests: Tests, k: nat, d: nat, t: nat)
    requires ShapePreserving(tests) && d < |data| && t < |data[d]|
    ensures FlagsAfter(data, tests, k)[d][t] == GoodFlag || FlagsAfter(data, tests, k)[d][t] == BadFlag
    ensures GoodAfter(data, tests, k)[d][t].Some? ==>
      FlagsAfter(data, tests, k)[d][t] == GoodFlag && GoodAfter(data, tests, k)[d][t] == data[d][t]
    ensures FlagsAfter(data, tests, k)[d][t] == GoodFlag ==> data[d][t].Some?
  {
    if k > 0 {
      FlagsAgree(data, tests, k - 1, d, t);
      StepMonotone(data, tests, k - 1, d, t);
    }
  }

  /** A sample some iteration rejects is flagged 4 and masked from then on. */
  lemma {:induction false} RejectedStaysFlagged(data: Levels, tests: Tests, j: nat, k: nat, d: nat, t: nat)
    requires ShapePreserving(tests) && j < k && d < |data| && t < |data[d]|
    requires tests(j, GoodAfter(data, tests, j))[d][t]
    ensures FlagsAfter(data, tests, k)[d][t] == BadFlag && GoodAfter(data, tests, k)[d][t].None?
  {
    StepMonotone(data, tests, j, d, t);
    HistoryMonotone(data, tests, j + 1, k, d, t);
  }
}
