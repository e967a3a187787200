/** Sorting of integer sequences (numpy's `np.sort`) and the index permutation that sorts them
    (numpy's `np.argsort`). */
module Sorting {

  predicate Sorted(s: seq<int>) {
    forall i, j :: 0 <= i < j < |s| ==> s[i] <= s[j]
  }

  predicate StrictlyIncreasing(s: seq<int>) {
    forall i, j :: 0 <= i < j < |s| ==> s[i] < s[j]
  }

  lemma {:induction false} SortedTail(s: seq<int>)
    requires Sorted(s) && s != []
    ensures Sorted(s[1..])
    ensures forall j :: 0 <= j < |s| ==> s[0] <= s[j]
  {
    forall i, j | 0 <= i < j < |s| - 1 ensures s[1..][i] <= s[1..][j] {
      assert s[1..][i] == s[i + 1] && s[1..][j] == s[j + 1];
    }
  }

  /** Inserts `x` into a sorted sequence before the first element not smaller than it. */
  function Insert(x: int, s: seq<int>): (r: seq<int>)
    requires Sorted(s)
    ensures Sorted(r)
    ensures multiset(r) == multiset{x} + multiset(s)
    ensures |r| == |s| + 1
  {
    if s == [] then [x]
    else if x <= s[0] then [x] + s
    else
      assert multiset(s) == multiset{s[0]} + multiset(s[1..]) by { assert s == [s[0]] + s[1..]; }
      var rest := Insert(x, s[1..]);
      LowerBoundKept(s[0], x, s[1..], rest);
      [s[0]] + rest
  }

  /** A lower bound of `x` and of every element of `s` bounds every element of `r`, when `r`
      holds exactly `x` and the elements of `s`. */
  lemma {:induction false} LowerBoundKept(lo: int, x: int, s: seq<int>, r: seq<int>)
    requires Sorted([lo] + s) && lo <= x
    requires multiset(r) == multiset{x} + multiset(s)
    ensures forall j :: 0 <= j < |r| ==> lo <= r[j]
  {
    forall j | 0 <= j < |r| ensures lo <= r[j] {
      assert ([lo] + s)[0] == lo;
      assert r[j] in multiset(r);
      if r[j] != x {
        assert r[j] in multiset(s);
        var k :| 0 <= k < |s| && s[k] == r[j];
        assert ([lo] + s)[k + 1] == s[k];
      }
    }
  }

  /** `np.sort`: the sorted rearrangement of `s`. */
  function Sort(s: seq<int>): (r: seq<int>)
    ensures Sorted(r)
    ensures multiset(r) == multiset(s)
    ensures |r| == |s|
  {
    if s == [] then []
    else
      assert s == [s[0]] + s[1..];
      Insert(s[0], Sort(s[1..]))
  }

  /** Two sorted sequences with the same elements are equal: sorting is determined by the
      multiset of its input. */
  lemma {:induction false} SortedUnique(a: seq<int>, b: seq<int>)
    requires Sorted(a) && Sorted(b)
    requires multiset(a) == multiset(b)
    ensures a == b
    decreases |a|, 1
  {
    if a != [] {
      SameHead(a, b);
      SortedTail(a);
      SortedTail(b);
      TailMultiset(a);
      TailMultiset(b);
      ConsEqual(a, b);
    }
  }

  /** Two non-empty sorted sequences with the same elements have the same length and the same
      least element. */
  lemma {:induction false} SameHead(a: seq<int>, b: seq<int>)
    requires Sorted(a) && Sorted(b) && a != []
    requires multiset(a) == multiset(b)
    ensures |b| == |a| && a[0] == b[0]
  {
    assert |b| == |a| by { assert |multiset(a)| == |a| && |multiset(b)| == |b|; }
    assert a[0] in multiset(b) by { assert a[0] in multiset(a); }
    assert b[0] in multiset(a) by { assert b[0] in multiset(b); }
    var i :| 0 <= i < |b| && b[i] == a[0];
    var j :| 0 <= j < |a| && a[j] == b[0];
  }

  /** Equal heads and, by induction, equal tails make equal sequences. */
  lemma {:induction false} ConsEqual(a: seq<int>, b: seq<int>)
    requires a != [] && |b| == |a| && a[0] == b[0]
    requires Sorted(a[1..]) && Sorted(b[1..]) && multiset(a[1..]) == multiset(b[1..])
    ensures a == b
    decreases |a|, 0
  {
    SortedUnique(a[1..], b[1..]);
    assert a == [a[0]] + a[1..];
    assert b == [b[0]] + b[1..];
  }

  /** Removing the head removes one occurrence of it from the multiset. */
  lemma {:induction false} TailMultiset(a: seq<int>)
    requires a != []
    ensures multiset(a[1..]) == multiset(a) - multiset{a[0]}
  {
    assert a == [a[0]] + a[1..];
  }

  /** Sorting depends only on the multiset of the input. */
  lemma {:induction false} SortDeterminedByMultiset(s: seq<int>, t: seq<int>)
    requires multiset(s) == multiset(t)
    ensures Sort(s) == Sort(t)
  {
    SortedUnique(Sort(s), Sort(t));
  }

  /** An already sorted sequence is its own sort. */
  lemma {:induction false} SortOfSorted(s: seq<int>)
    requires Sorted(s)
    ensures Sort(s) == s
  {
    SortedUnique(Sort(s), s);
  }

  /** The sort of a sequence in which no value occurs twice is strictly increasing. */
  lemma {:induction false} SortNoDuplicates(s: seq<int>)
    requires forall j :: 0 <= j < |s| ==> multiset(s)[s[j]] <= 1
    ensures StrictlyIncreasing(Sort(s))
  {
    var r := Sort(s);
    forall i, j | 0 <= i < j < |r|
      ensures r[i] < r[j]
    {
      if r[i] >= r[j] {
        TwiceCounted(r, i, j);
      }
    }
  }

  /** A value at two indices is counted twice. */
  lemma {:induction false} TwiceCounted(r: seq<int>, i: nat, j: nat)
    requires i < j < |r| && r[i] == r[j]
    ensures multiset(r)[r[i]] >= 2
  {
    assert r == r[..j] + r[j..];
    assert r[i] in r[..j] && r[j] in r[j..];
    assert multiset(r) == multiset(r[..j]) + multiset(r[j..]);
  }

  /** The elements of `keys` at the positions listed in `idx` (numpy's `keys[idx]`). */
  function Permute<T>(keys: seq<T>, idx: seq<nat>): (r: seq<T>)
    requires forall j :: 0 <= j < |idx| ==> idx[j] < |keys|
    ensures |r| == |idx|
    ensures forall j :: 0 <= j < |idx| ==> r[j] == keys[idx[j]]
  {
    if idx == [] then [] else [keys[idx[0]]] + Permute(keys, idx[1..])
  }

  predicate KeySorted(keys: seq<int>, idx: seq<nat>)
    requires forall j :: 0 <= j < |idx| ==> idx[j] < |keys|
  {
    Sorted(Permute(keys, idx))
  }

  /** The indices `lo, lo + 1, …, hi - 1`. */
  function Range(lo: nat, hi: nat): (r: seq<nat>)
    requires lo <= hi
    ensures |r| == hi - lo
    ensures forall j :: 0 <= j < |r| ==> r[j] == lo + j
    decreases hi - lo
  {
    if lo == hi then [] else [lo] + Range(lo + 1, hi)
  }

  /** Inserts index `i` into a key-sorted index list before the first index whose key is not
      smaller, so that between equal keys the smaller index comes first. */
  function InsertIndex(keys: seq<int>, i: nat, idx: seq<nat>): (r: seq<nat>)
    requires i < |keys|
    requires forall j :: 0 <= j < |idx| ==> idx[j] < |keys|
    requires KeySorted(keys, idx)
    ensures forall j :: 0 <= j < |r| ==> r[j] < |keys|
    ensures multiset(r) == multiset{i} + multiset(idx)
    ensures Permute(keys, r) == Insert(keys[i], Permute(keys, idx))
  {
    if idx == [] then [i]
    else if keys[i] <= keys[idx[0]] then
      PermuteCons(keys, i, idx);
      [i] + idx
    else
      PermuteTail(keys, idx);
      var rest := InsertIndex(keys, i, idx[1..]);
      PermuteCons(keys, idx[0], rest);
      InsertIndexStep(keys, i, idx, rest);
      InsertPastHead(keys[i], Permute(keys, idx));
      [idx[0]] + rest
  }

  /** Inserting past the head keeps the head in front. */
  lemma {:induction false} InsertPastHead(x: int, s: seq<int>)
    requires Sorted(s) && s != [] && s[0] < x
    ensures Sorted(s[1..])
    ensures Insert(x, s) == [s[0]] + Insert(x, s[1..])
  {
    SortedTail(s);
  }

  lemma {:induction false} InsertIndexStep(keys: seq<int>, i: nat, idx: seq<nat>, rest: seq<nat>)
    requires i < |keys| && idx != []
    requires forall j :: 0 <= j < |idx| ==> idx[j] < |keys|
    requires forall j :: 0 <= j < |rest| ==> rest[j] < |keys|
    requires multiset(rest) == multiset{i} + multiset(idx[1..])
    ensures multiset([idx[0]] + rest) == multiset{i} + multiset(idx)
  {
    assert idx == [idx[0]] + idx[1..];
    assert multiset(idx) == multiset{idx[0]} + multiset(idx[1..]);
  }

  lemma {:induction false} PermuteTail(keys: seq<int>, idx: seq<nat>)
    requires idx != []
    requires forall j :: 0 <= j < |idx| ==> idx[j] < |keys|
    requires KeySorted(keys, idx)
    ensures Permute(keys, idx) == [keys[idx[0]]] + Permute(keys, idx[1..])
    ensures KeySorted(keys, idx[1..])
  {
    SortedTail(Permute(keys, idx));
    assert Permute(keys, idx)[1..] == Permute(keys, idx[1..]);
  }

  lemma {:induction false} PermuteCons<T>(keys: seq<T>, i: nat, idx: seq<nat>)
    requires i < |keys|
    requires forall j :: 0 <= j < |idx| ==> idx[j] < |keys|
    ensures Permute(keys, [i] + idx) == [keys[i]] + Permute(keys, idx)
  {
  }

  /** `np.argsort(keys[k..])` shifted by `k`: a permutation of `k .. |keys| - 1` that orders the keys. */
  function ArgSortFrom(keys: seq<int>, k: nat): (r: seq<nat>)
    requires k <= |keys|
    ensures forall j :: 0 <= j < |r| ==> r[j] < |keys|
    ensures multiset(r) == multiset(Range(k, |keys|))
    ensures Permute(keys, r) == Sort(keys[k..])
    decreases |keys| - k
  {
    if k == |keys| then []
    else
      assert keys[k..] == [keys[k]] + keys[k + 1..];
      assert Range(k, |keys|) == [k] + Range(k + 1, |keys|);
      InsertIndex(keys, k, ArgSortFrom(keys, k + 1))
  }

  /** `np.argsort(keys)`: a permutation of the indices of `keys` under which they are sorted. */
  function ArgSort(keys: seq<int>): (r: seq<nat>)
    ensures |r| == |keys|
    ensures forall j :: 0 <= j < |r| ==> r[j] < |keys|
    ensures multiset(r) == multiset(Range(0, |keys|))
    ensures Permute(keys, r) == Sort(keys)
  {
    assert keys[0..] == keys;
    var r := ArgSortFrom(keys, 0);
    assert |r| == |keys| by { assert |multiset(r)| == |r|; assert |multiset(Range(0, |keys|))| == |keys|; }
    r
  }

  /** The key order of an already sorted sequence is the identity: `argsort` keeps equal keys
      in index order. */
  lemma {:induction false} ArgSortOfSorted(keys: seq<int>)
    requires Sorted(keys)
    ensures ArgSort(keys) == Range(0, |keys|)
  {
    ArgSortFromOfSorted(keys, 0);
  }

  lemma {:induction false} ArgSortFromOfSorted(keys: seq<int>, k: nat)
    requires Sorted(keys) && k <= |keys|
    ensures ArgSortFrom(keys, k) == Range(k, |keys|)
    decreases |keys| - k
  {
    if k < |keys| {
      ArgSortFromOfSorted(keys, k + 1);
      assert Range(k, |keys|) == [k] + Range(k + 1, |keys|);
    }
  }

  /** Taking every position in order gives the sequence back. */
  lemma {:induction false} PermuteRange<T>(s: seq<T>)
    ensures Permute(s, Range(0, |s|)) == s
  {
  }

  // ---------------------------------------------------------------- distinct reals

  predicate IncreasingReals(s: seq<real>) {
    forall i, j :: 0 <= i < j < |s| ==> s[i] < s[j]
  }

  /** `x` put in its place in a strictly increasing sequence, unless it is already there. */
  function InsertDistinct(x: real, s: seq<real>): (r: seq<real>)
    requires IncreasingReals(s)
    ensures IncreasingReals(r)
    ensures forall y :: y in r <==> y == x || y in s
  {
    if s == [] then [x]
    else if x < s[0] then [x] + s
    else if x == s[0] then s
    else
      assert IncreasingReals(s[1..]);
      var rest := InsertDistinct(x, s[1..]);
      forall i | 0 <= i < |rest|
        ensures s[0] < rest[i]
      {
        assert rest[i] in rest;
        if rest[i] != x {
          var j :| 0 <= j < |s[1..]| && s[1..][j] == rest[i];
          assert s[j + 1] == rest[i];
        }
      }
      [s[0]] + rest
  }

  /** `np.unique` on reals: the distinct values, in increasing order. */
  function SortedDistinct(xs: seq<real>): (r: seq<real>)
    ensures IncreasingReals(r)
    ensures forall y :: y in r <==> y in xs
  {
    if xs == [] then []
    else InsertDistinct(xs[|xs| - 1], SortedDistinct(xs[..|xs| - 1]))
  }
}
