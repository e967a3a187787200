/** `time_check`: classifies a record time axis by whether it repeats times and whether its
    distinct times appear in increasing order (SOURCE/time_check.py). */
module TimeCheck {
  import opened Wrappers
  import opened Sorting
  import opened Steps
  import Series

  /** Index `i` is a duplicate when it is not the first occurrence of its time. */
  function DuplicateMask(t: seq<int>): (dup: seq<bool>)
    ensures |dup| == |t|
    ensures forall i :: 0 <= i < |t| ==> (dup[i] <==> exists j :: 0 <= j < i && t[j] == t[i])
  {
    seq(|t|, i requires 0 <= i < |t| => t[i] in t[..i])
  }

  function Not(b: seq<bool>): (r: seq<bool>)
    ensures |r| == |b| && forall j :: 0 <= j < |b| ==> r[j] == !b[j]
  {
    seq(|b|, j requires 0 <= j < |b| => !b[j])
  }

  /** `np.delete(t, duplicated_indices)`: the first occurrences, in their original order. */
  function FirstOccurrences(t: seq<int>): (u: seq<int>)
    ensures |u| <= |t|
  {
    Series.Select(t, Not(DuplicateMask(t)))
  }

  /** Some time occurs more than once. */
  function HasDuplicates(t: seq<int>): bool {
    Series.CountTrue(DuplicateMask(t)) > 0
  }

  lemma {:induction false} HasDuplicatesMeaning(t: seq<int>)
    ensures HasDuplicates(t) <==> exists i, j :: 0 <= j < i < |t| && t[j] == t[i]
  {
    var dup := DuplicateMask(t);
    if exists i, j :: 0 <= j < i < |t| && t[j] == t[i] {
      var i, j :| 0 <= j < i < |t| && t[j] == t[i];
      assert dup[i];
    }
  }

  /** `np.isclose(a, b)` with numpy's default tolerances: |a - b| <= 1e-8 + 1e-5 * |b|. */
  predicate Close(a: int, b: int) {
    Abs(a - b) as real <= 0.00000001 + 0.00001 * Abs(b) as real
  }

  function Abs(x: int): nat {
    if x < 0 then -x else x
  }

  /** `np.allclose(a, b)`: the two axes agree position by position within the tolerance. */
  predicate AllClose(a: seq<int>, b: seq<int>)
    requires |a| == |b|
  {
    forall j :: 0 <= j < |a| ==> Close(a[j], b[j])
  }

  /** The status code: 3 for repeated times and wrong order, 2 for wrong order only, 1 for
      repeated times only, 0 otherwise. The order is judged by comparing the first occurrences
      with their sorted copy within `allclose`'s tolerance. */
  function Code(t: seq<int>): (c: int)
    ensures 0 <= c <= 3
  {
    var isUnique := !HasDuplicates(t);
    var u := FirstOccurrences(t);
    var isMonotonic := AllClose(Sort(u), u);
    if !isUnique && !isMonotonic then 3
    else if !isMonotonic then 2
    else if !isUnique then 1
    else 0
  }

  /** An axis already in order passes the comparison with its sorted copy. */
  lemma {:induction false} SortedAllClose(u: seq<int>)
    requires Sorted(u)
    ensures AllClose(Sort(u), u)
  {
    SortOfSorted(u);
  }

  /** Far enough apart, a position out of order is detected: when the sorted copy and the axis
      differ somewhere by more than the tolerance, the order is wrong. */
  lemma {:induction false} FarDisorderDetected(t: seq<int>, j: nat)
    requires j < |FirstOccurrences(t)| && !Close(Sort(FirstOccurrences(t))[j], FirstOccurrences(t)[j])
    ensures Code(t) >= 2
  {
  }

  /** Before classifying, the tool takes the modal step of the unsorted axis, which fails when
      no consecutive step is non-zero. */
  function Status(t: seq<int>): (r: Result<int>)
    ensures r.Ok? ==> r.value == Code(t)
  {
    var step := ModalStep(Diffs(t));
    if step.Err? then Err(step.reason) else Ok(Code(t))
  }

  /** The status is an error exactly when every consecutive step is zero (fewer than two
      records included). */
  lemma {:induction false} StatusError(t: seq<int>)
    ensures Status(t).Err? <==> forall j :: 0 <= j < |t| - 1 ==> t[j + 1] == t[j]
  {
    var d := Diffs(t);
    ModalStepSpec(d);
    DiffsAllZero(t);
    assert Status(t).Err? <==> ModalStep(d).Err?;
  }

  /** The code adds 1 for a repeated time and 2 for first occurrences whose sorted copy is not
      within the tolerance of them; first occurrences already in order never add 2. */
  lemma {:induction false} StatusFormula(t: seq<int>)
    ensures Code(t) ==
      (if exists i, j :: 0 <= j < i < |t| && t[j] == t[i] then 1 else 0) +
      (if AllClose(Sort(FirstOccurrences(t)), FirstOccurrences(t)) then 0 else 2)
    ensures Sorted(FirstOccurrences(t)) ==> Code(t) == (if exists i, j :: 0 <= j < i < |t| && t[j] == t[i] then 1 else 0)
  {
    HasDuplicatesMeaning(t);
    var u := FirstOccurrences(t);
    if Sorted(u) { SortedAllClose(u); }
  }

  /** Without repeated times nothing is deleted. */
  lemma {:induction false} DistinctKept(t: seq<int>)
    requires forall i, j :: 0 <= j < i < |t| ==> t[j] != t[i]
    ensures !HasDuplicates(t) && FirstOccurrences(t) == t
  {
    HasDuplicatesMeaning(t);
    var dup := DuplicateMask(t);
    assert forall i :: 0 <= i < |t| ==> !dup[i];
    Series.SelectAll(t, Not(dup));
  }

  /** From about 1981 on (3.6e8 s), the tolerance exceeds an hour, so two hourly records
      out of order are not seen: [b + 3600, b] is out of order and still has code 0 (for
      instance b = 1.6e9, where the tolerance is about 16000 s). */
  lemma {:induction false} ToleratedSwap(b: int)
    requires b >= 360000000
    ensures !Sorted(SwappedAxis(b))
    ensures Code(SwappedAxis(b)) == 0
  {
    var t := SwappedAxis(b);
    assert t[0] > t[1];
    DistinctKept(t);
    SwappedAxisClose(b);
    assert AllClose(Sort(FirstOccurrences(t)), FirstOccurrences(t));
  }

  lemma {:induction false} SwappedAxisClose(b: int)
    requires b >= 360000000
    ensures AllClose(Sort(SwappedAxis(b)), SwappedAxis(b))
  {
    SortSwappedPair(b, b + 3600);
    HourApartClose(b, b + 3600);
    HourApartClose(b + 3600, b);
  }

  /** Two times an hour apart are close once the second is past 3.6e8 s. */
  lemma {:induction false} HourApartClose(a: int, c: int)
    requires c >= 360000000 && Abs(a - c) == 3600
    ensures Close(a, c)
  {
    assert 0.00001 * Abs(c) as real >= 3600.0;
  }

  function SwappedAxis(b: int): seq<int> {
    [b + 3600, b]
  }

  /** Sorting two times in decreasing order swaps them. */
  lemma {:induction false} SortSwappedPair(x: int, y: int)
    requires x < y
    ensures Sort([y, x]) == [x, y]
  {
    assert [y, x][1..] == [x];
    assert [x][1..] == [];
    assert Sort([x]) == [x];
    assert Insert(y, [x]) == [x] + Insert(y, []);
  }

  /** A strictly increasing axis with at least two records has status 0. */
  lemma {:induction false} IncreasingHasStatusZero(t: seq<int>)
    requires |t| >= 2 && StrictlyIncreasing(t)
    ensures Status(t) == Ok(0)
  {
    StatusError(t);
    assert t[1] != t[0];
    assert Status(t).Ok?;
    CodeOfIncreasing(t);
  }

  /** A strictly increasing axis has code 0. */
  lemma {:induction false} CodeOfIncreasing(t: seq<int>)
    requires StrictlyIncreasing(t)
    ensures Code(t) == 0
  {
    DistinctKept(t);
    SortedAllClose(t);
  }
}
