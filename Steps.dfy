/** Consecutive time steps and their most frequent value, as computed with `np.diff`,
    `np.unique(..., return_counts=True)`, `np.delete` and `np.argmax`. */
module Steps {
  import opened Wrappers
  import opened Sorting

  /** `t[1:] - t[:-1]`. */
  function Diffs(t: seq<int>): (d: seq<int>)
    ensures |t| >= 1 ==> |d| == |t| - 1
    ensures |t| == 0 ==> d == []
    ensures forall j :: 0 <= j < |d| ==> d[j] == t[j + 1] - t[j]
  {
    if |t| <= 1 then [] else seq(|t| - 1, j requires 0 <= j < |t| - 1 => t[j + 1] - t[j])
  }

  /** The consecutive steps of a sorted series are never negative. */
  lemma {:induction false} DiffsOfSorted(t: seq<int>)
    requires Sorted(t)
    ensures forall j :: 0 <= j < |Diffs(t)| ==> Diffs(t)[j] >= 0
  {
  }

  /** All consecutive steps are zero exactly when every record repeats its predecessor. */
  lemma {:induction false} DiffsAllZero(t: seq<int>)
    ensures (forall j :: 0 <= j < |Diffs(t)| ==> Diffs(t)[j] == 0) <==>
      (forall j :: 0 <= j < |t| - 1 ==> t[j + 1] == t[j])
  {
    var d := Diffs(t);
    assert forall j :: 0 <= j < |t| - 1 ==> d[j] == t[j + 1] - t[j];
  }

  /** Drops repeated neighbours of a sorted sequence. */
  function Dedup(s: seq<int>): (r: seq<int>)
    requires Sorted(s)
    ensures StrictlyIncreasing(r)
    ensures forall x :: x in r <==> x in s
    ensures s != [] ==> r != [] && r[0] == s[0]
  {
    if |s| <= 1 then s
    else
      SortedTail(s);
      if s[0] == s[1] then Dedup(s[1..])
      else
        var rest := Dedup(s[1..]);
        assert forall x :: x in rest ==> s[0] < x by {
          forall x | x in rest ensures s[0] < x {
            assert x in s[1..];
            var k :| 0 <= k < |s[1..]| && s[1..][k] == x;
            assert s[1] <= s[k + 1];
          }
        }
        [s[0]] + rest
  }

  /** `np.unique(s)`: the distinct values of `s` in increasing order. */
  function Unique(s: seq<int>): (r: seq<int>)
    ensures StrictlyIncreasing(r)
    ensures forall x :: x in r <==> x in s
  {
    var sorted := Sort(s);
    assert forall x :: x in sorted <==> x in s by {
      forall x ensures x in sorted <==> x in s {
        assert x in sorted <==> x in multiset(sorted);
        assert x in s <==> x in multiset(s);
      }
    }
    Dedup(sorted)
  }

  /** How many times `v` occurs in `s`. */
  function Count(s: seq<int>, v: int): nat {
    multiset(s)[v]
  }

  /** The `return_counts` array of `np.unique`: the count of each listed value. */
  function Counts(values: seq<int>, s: seq<int>): (c: seq<nat>)
    ensures |c| == |values|
    ensures forall j :: 0 <= j < |values| ==> c[j] == Count(s, values[j])
  {
    seq(|values|, j requires 0 <= j < |values| => Count(s, values[j]))
  }

  /** `np.argmax`: the first index holding the largest value. */
  function ArgMaxFirst(c: seq<nat>): (k: nat)
    requires |c| > 0
    ensures k < |c|
    ensures forall j :: 0 <= j < |c| ==> c[j] <= c[k]
    ensures forall j :: 0 <= j < k ==> c[j] < c[k]
  {
    if |c| == 1 then 0
    else
      var k := ArgMaxFirst(c[..|c| - 1]);
      assert forall j :: 0 <= j < |c| - 1 ==> c[..|c| - 1][j] == c[j];
      if c[|c| - 1] > c[k] then |c| - 1 else k
  }

  /** `np.delete(s, i)`. */
  function RemoveAt<T>(s: seq<T>, i: nat): (r: seq<T>)
    requires i < |s|
    ensures |r| == |s| - 1
    ensures forall j :: 0 <= j < i ==> r[j] == s[j]
    ensures forall j :: i <= j < |r| ==> r[j] == s[j + 1]
  {
    s[..i] + s[i + 1..]
  }

  /** The position of `v` in a sequence that contains it. */
  function IndexOf(s: seq<int>, v: int): (i: nat)
    requires v in s
    ensures i < |s| && s[i] == v
    ensures forall j :: 0 <= j < i ==> s[j] != v
  {
    if s[0] == v then 0 else 1 + IndexOf(s[1..], v)
  }

  lemma {:induction false} RemoveAtIncreasing(s: seq<int>, i: nat)
    requires i < |s| && StrictlyIncreasing(s)
    ensures StrictlyIncreasing(RemoveAt(s, i))
    ensures forall x :: x in RemoveAt(s, i) <==> x in s && x != s[i]
  {
    var r := RemoveAt(s, i);
    forall a, b | 0 <= a < b < |r| ensures r[a] < r[b] {
      var a' := if a < i then a else a + 1;
      var b' := if b < i then b else b + 1;
      assert r[a] == s[a'] && r[b] == s[b'] && a' < b';
    }
    forall x ensures x in r <==> x in s && x != s[i] {
      if x in s && x != s[i] {
        var k :| 0 <= k < |s| && s[k] == x;
        if k < i { assert r[k] == x; } else { assert k > i; assert r[k - 1] == x; }
      }
      if x in r {
        var k :| 0 <= k < |r| && r[k] == x;
        var k' := if k < i then k else k + 1;
        assert s[k'] == x && k' != i;
      }
    }
  }

  /** In a strictly increasing sequence the order of values is the order of positions. */
  lemma {:induction false} IncreasingIndexOrder(s: seq<int>, i: nat, k: nat)
    requires StrictlyIncreasing(s) && i < |s| && k < |s| && s[i] < s[k]
    ensures i < k
  {
  }

  /** The distinct non-zero steps in increasing order, with the zero value deleted from the
      values and from the counts alike. */
  function NonZeroValues(d: seq<int>): (vals: seq<int>)
    ensures StrictlyIncreasing(vals)
    ensures forall x :: x in vals <==> x in d && x != 0
  {
    var u := Unique(d);
    if 0 in u then
      var z := IndexOf(u, 0);
      RemoveAtIncreasing(u, z);
      RemoveAt(u, z)
    else u
  }

  /** The most frequent non-zero step of `d`; an error when `d` holds no non-zero step (numpy's
      `argmax` of an empty array raises). */
  function ModalStep(d: seq<int>): (r: Result<int>)
  {
    var vals := NonZeroValues(d);
    if vals == [] then Err("attempt to get argmax of an empty sequence")
    else Ok(vals[ArgMaxFirst(Counts(vals, d))])
  }

  /** `r` is a most frequent non-zero value of `d`, and the smallest one among ties. */
  ghost predicate IsModalStep(d: seq<int>, r: int) {
    r != 0 && r in d &&
    forall v :: v in d && v != 0 ==> Count(d, v) <= Count(d, r) && (v < r ==> Count(d, v) < Count(d, r))
  }

  /** The modal step exists iff some step is non-zero, and it is the most frequent non-zero
      step, ties going to the smallest. */
  lemma {:induction false} ModalStepSpec(d: seq<int>)
    ensures ModalStep(d).Err? <==> forall j :: 0 <= j < |d| ==> d[j] == 0
    ensures ModalStep(d).Ok? ==> IsModalStep(d, ModalStep(d).value)
  {
    var vals := NonZeroValues(d);
    if vals == [] {
      assert forall j :: 0 <= j < |d| ==> d[j] == 0 || d[j] in vals;
    } else {
      var c := Counts(vals, d);
      var k := ArgMaxFirst(c);
      var r := vals[k];
      assert r in d;
      forall v | v in d && v != 0
        ensures Count(d, v) <= Count(d, r) && (v < r ==> Count(d, v) < Count(d, r))
      {
        assert v in vals;
        var i :| 0 <= i < |vals| && vals[i] == v;
        assert c[i] == Count(d, v);
        if v < r {
          IncreasingIndexOrder(vals, i, k);
        }
      }
    }
  }

  /** At most one value is the modal step of a step series. */
  lemma {:induction false} ModalStepUnique(d: seq<int>, r1: int, r2: int)
    requires IsModalStep(d, r1) && IsModalStep(d, r2)
    ensures r1 == r2
  {
  }
}
