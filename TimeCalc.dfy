/** `time_calc`: the most representative sampling time of a record time axis
    (SOURCE/time_calc.py). */
module TimeCalc {
  import opened Wrappers
  import opened Sorting
  import opened Steps

  /** The unmasked times, in their stored order. */
  function ValidTimes(t: seq<Option<int>>): (v: seq<int>)
    ensures |v| <= |t|
    ensures forall x :: x in v <==> Some(x) in t
  {
    if t == [] then []
    else ValidTimes(t[..|t| - 1]) + (if t[|t| - 1].Some? then [t[|t| - 1].value] else [])
  }

  /** Masked times are dropped, the rest sorted, and the most frequent non-zero gap between
      consecutive sorted times is the sampling time. */
  function SamplingTime(t: seq<Option<int>>): Result<int> {
    ModalStep(Diffs(Sort(ValidTimes(t))))
  }

  /** The sampling time is a positive gap between consecutive sorted times, no other non-zero
      gap is more frequent, and a gap as frequent is larger. */
  lemma {:induction false} SamplingTimeSpec(t: seq<Option<int>>)
    ensures SamplingTime(t).Ok? ==> SamplingTime(t).value > 0
    ensures SamplingTime(t).Ok? ==> IsModalStep(Diffs(Sort(ValidTimes(t))), SamplingTime(t).value)
  {
    var d := Diffs(Sort(ValidTimes(t)));
    ModalStepSpec(d);
    DiffsOfSorted(Sort(ValidTimes(t)));
  }

  /** The result does not depend on the order of the records, nor on which entries are masked
      beyond the multiset of unmasked times. */
  lemma {:induction false} SamplingTimeOrderFree(t: seq<Option<int>>, t': seq<Option<int>>)
    requires multiset(ValidTimes(t)) == multiset(ValidTimes(t'))
    ensures SamplingTime(t) == SamplingTime(t')
  {
    SortDeterminedByMultiset(ValidTimes(t), ValidTimes(t'));
  }

  /** Every consecutive gap is zero iff all elements are equal. */
  lemma {:induction false} ZeroGapsIffConstant(s: seq<int>)
    ensures (forall j :: 0 <= j < |Diffs(s)| ==> Diffs(s)[j] == 0) <==> (forall j :: 0 <= j < |s| ==> s[j] == s[0])
  {
    DiffsAllZero(s);
    if forall j :: 0 <= j < |s| - 1 ==> s[j + 1] == s[j] {
      forall j | 0 <= j < |s| ensures s[j] == s[0] {
        EqualToFirst(s, j);
      }
    }
  }

  /** When every element repeats its predecessor, element `j` equals the first. */
  lemma {:induction false} EqualToFirst(s: seq<int>, j: nat)
    requires j < |s| && forall i :: 0 <= i < |s| - 1 ==> s[i + 1] == s[i]
    ensures s[j] == s[0]
  {
    if j > 0 {
      EqualToFirst(s, j - 1);
    }
  }

  /** There is no sampling time (an error) exactly when fewer than two distinct times are
      unmasked. */
  lemma {:induction false} SamplingTimeError(t: seq<Option<int>>)
    ensures SamplingTime(t).Err? <==> forall x, y :: Some(x) in t && Some(y) in t ==> x == y
  {
    var v := ValidTimes(t);
    var s := Sort(v);
    var d := Diffs(s);
    ModalStepSpec(d);
    assert SamplingTime(t).Err? <==> forall j :: 0 <= j < |d| ==> d[j] == 0;
    ZeroGapsIffConstant(s);
    assert forall x :: x in s <==> Some(x) in t by {
      forall x ensures x in s <==> Some(x) in t {
        assert x in s <==> x in multiset(s);
        assert x in v <==> x in multiset(v);
      }
    }
    ConstantIffSingleValue(s);
  }

  lemma {:induction false} ConstantIffSingleValue(s: seq<int>)
    ensures (forall j :: 0 <= j < |s| ==> s[j] == s[0]) <==> (forall x, y :: x in s && y in s ==> x == y)
  {
    if forall j :: 0 <= j < |s| ==> s[j] == s[0] {
      forall x, y | x in s && y in s ensures x == y {
        var i :| 0 <= i < |s| && s[i] == x;
        var k :| 0 <= k < |s| && s[k] == y;
      }
    }
    assert forall j :: 0 <= j < |s| ==> s[j] in s;
  }
}
