/** The input modal step as `time_averager` computes it, against the one of `time_calc`
    (SOURCE/obs_postpro/time_averager.py). */
module AveragerStep {
  import opened Wrappers
  import opened Sorting
  import opened Steps

  /** The input modal step as the averager computes it: `np.unique` of the unsorted steps with
      their counts, the zero value deleted from the values only, then the value list indexed
      at the argmax of the count list. */
  function AveragerModalStep(d: seq<int>): (r: Result<int>)
    ensures r.Ok? ==> r.value != 0 && r.value in d
  {
    var counts := Counts(Unique(d), d);
    var vals := NonZeroValues(d);
    if counts == [] then Err("attempt to get argmax of an empty sequence")
    else
      var k := ArgMaxFirst(counts);
      if k < |vals| then Ok(vals[k]) else Err("index out of bounds")
  }

  /** Without a zero step the averager and `time_calc` agree. */
  lemma {:induction false} AveragerModalStepWithoutZero(d: seq<int>)
    requires 0 !in d
    ensures AveragerModalStep(d) == ModalStep(d)
  {
    assert 0 !in Unique(d);
    assert NonZeroValues(d) == Unique(d);
  }

  /** With a zero step among non-negative steps, zero is the first distinct value, so the
      index found among the counts selects the next larger distinct step, and an error when
      the most frequent step is the largest one. */
  lemma {:induction false} AveragerModalStepShift(d: seq<int>, u: seq<int>)
    requires 0 in d && forall j :: 0 <= j < |d| ==> d[j] >= 0
    requires u == Unique(d)
    ensures var k := ArgMaxFirst(Counts(u, d));
      (AveragerModalStep(d).Ok? <==> k + 1 < |u|) &&
      (AveragerModalStep(d).Ok? ==> AveragerModalStep(d).value == u[k + 1])
  {
    ZeroFirst(d, u);
    var counts := Counts(u, d);
    var k := ArgMaxFirst(counts);
    var vals := NonZeroValues(d);
    assert vals == RemoveAt(u, 0);
    assert AveragerModalStep(d) == if k < |vals| then Ok(vals[k]) else Err("index out of bounds");
    assert k + 1 < |u| ==> vals[k] == u[k + 1];
  }

  /** Among non-negative steps, zero is the smallest distinct value. */
  lemma {:induction false} ZeroFirst(d: seq<int>, u: seq<int>)
    requires 0 in d && forall j :: 0 <= j < |d| ==> d[j] >= 0
    requires u == Unique(d)
    ensures u != [] && u[0] == 0 && IndexOf(u, 0) == 0
  {
    assert 0 in u;
    assert u[0] in d;
  }

  /** A modal step in the sense of `IsModalStep` is the one `ModalStep` returns. */
  lemma {:induction false} ModalStepOf(d: seq<int>, r: int)
    requires IsModalStep(d, r)
    ensures ModalStep(d) == Ok(r)
  {
    ModalStepSpec(d);
    assert r in d && r != 0;
    ModalStepUnique(d, ModalStep(d).value, r);
  }

  /** Steps 0, 60, 60, 120: the most frequent non-zero step is 60 ... */
  lemma {:induction false} ModalStepExample(d: seq<int>)
    requires d == [0, 60, 60, 120]
    ensures ModalStep(d) == Ok(60)
  {
    assert Count(d, 60) == 2 && Count(d, 120) == 1;
    assert forall v :: v in d && v != 0 ==> v == 60 || v == 120;
    ModalStepOf(d, 60);
  }

  /** ... but the averager picks 120. */
  lemma {:induction false} AveragerModalStepPicksWrongStep(d: seq<int>)
    requires d == [0, 60, 60, 120]
    ensures AveragerModalStep(d) == Ok(120)
  {
    FirstExampleFacts(d);
    FirstExampleResult(d);
  }

  lemma {:induction false} FirstExampleFacts(d: seq<int>)
    requires d == [0, 60, 60, 120]
    ensures forall x :: x in d <==> x == 0 || x == 60 || x == 120
    ensures forall j :: 0 <= j < |d| ==> d[j] >= 0
    ensures Count(d, 0) == 1 && Count(d, 60) == 2 && Count(d, 120) == 1
  {
  }

  lemma {:induction false} FirstExampleResult(d: seq<int>)
    requires forall x :: x in d <==> x == 0 || x == 60 || x == 120
    requires forall j :: 0 <= j < |d| ==> d[j] >= 0
    requires Count(d, 0) == 1 && Count(d, 60) == 2 && Count(d, 120) == 1
    ensures AveragerModalStep(d) == Ok(120)
  {
    assert 0 in d;
    var u := Unique(d);
    AveragerModalStepShift(d, u);
    IncreasingOfThree(u, 0, 60, 120);
    var c := Counts(u, d);
    assert |c| == 3 && c[0] == Count(d, 0) && c[1] == Count(d, 60) && c[2] == Count(d, 120);
    ThreeElements(c);
    assert ArgMaxFirst(c) == 1;
  }

  /** Steps 0, 10, 10: the modal step is 10 ... */
  lemma {:induction false} ModalStepSecondExample(d: seq<int>)
    requires d == [0, 10, 10]
    ensures ModalStep(d) == Ok(10)
  {
    assert forall v :: v in d && v != 0 ==> v == 10;
    ModalStepOf(d, 10);
  }

  /** ... but the averager indexes past the end of its value list. */
  lemma {:induction false} AveragerModalStepOutOfRange(d: seq<int>)
    requires d == [0, 10, 10]
    ensures AveragerModalStep(d).Err?
  {
    SecondExampleFacts(d);
    SecondExampleResult(d);
  }

  lemma {:induction false} SecondExampleFacts(d: seq<int>)
    requires d == [0, 10, 10]
    ensures forall x :: x in d <==> x == 0 || x == 10
    ensures forall j :: 0 <= j < |d| ==> d[j] >= 0
    ensures Count(d, 0) == 1 && Count(d, 10) == 2
  {
  }

  lemma {:induction false} SecondExampleResult(d: seq<int>)
    requires forall x :: x in d <==> x == 0 || x == 10
    requires forall j :: 0 <= j < |d| ==> d[j] >= 0
    requires Count(d, 0) == 1 && Count(d, 10) == 2
    ensures AveragerModalStep(d).Err?
  {
    assert 0 in d;
    var u := Unique(d);
    AveragerModalStepShift(d, u);
    IncreasingOfTwo(u, 0, 10);
    var c := Counts(u, d);
    assert |c| == 2 && c[0] == Count(d, 0) && c[1] == Count(d, 10);
    TwoElements(c);
    assert ArgMaxFirst(c) == 1;
  }

  /** A sequence of length two is the display of its elements. */
  lemma TwoElements<T>(s: seq<T>)
    requires |s| == 2
    ensures s == [s[0], s[1]]
  {
  }

  /** A sequence of length three is the display of its elements. */
  lemma ThreeElements<T>(s: seq<T>)
    requires |s| == 3
    ensures s == [s[0], s[1], s[2]]
  {
  }

  lemma {:induction false} IncreasingOfThree(u: seq<int>, a: int, b: int, c: int)
    requires StrictlyIncreasing(u) && a < b < c
    requires forall x :: x in u <==> x == a || x == b || x == c
    ensures u == [a, b, c]
  {
    assert forall j :: 0 <= j < |u| ==> u[j] in u;
    var i, j, k := IndexOf(u, a), IndexOf(u, b), IndexOf(u, c);
    IncreasingIndexOrder(u, i, j);
    IncreasingIndexOrder(u, j, k);
    assert |u| > 3 ==> Nth(u, 0) < Nth(u, 1) < Nth(u, 2) < Nth(u, 3);
    assert |u| == 3;
  }

  lemma {:induction false} IncreasingOfTwo(u: seq<int>, a: int, b: int)
    requires StrictlyIncreasing(u) && a < b
    requires forall x :: x in u <==> x == a || x == b
    ensures u == [a, b]
  {
    assert forall j :: 0 <= j < |u| ==> u[j] in u;
    var i, j := IndexOf(u, a), IndexOf(u, b);
    IncreasingIndexOrder(u, i, j);
    assert |u| > 2 ==> Nth(u, 0) < Nth(u, 1) < Nth(u, 2);
    assert |u| == 2;
  }

  /** `u[m]` where it exists, so that a proof can name elements without an index check. */
  function Nth(u: seq<int>, m: int): int {
    if 0 <= m < |u| then u[m] else 0
  }
}
