/** Index maps between axes and the numpy fancy-index assignment of rows: the positions of the
    elements of one sequence that occur in another (`np.where`, or a comprehension over
    `range`), and `base[positions] = rows`. */
module Placement {
  import opened Wrappers
  import opened Series
  import opened Sorting

  /** The indices of `s` whose element occurs in `keep`, in increasing order (`np.where`, or the
      comprehensions over `range`). */
  function Positions<T(==,!new)>(s: seq<T>, keep: seq<T>): (r: seq<nat>)
    ensures forall k :: 0 <= k < |r| ==> r[k] < |s| && s[r[k]] in keep
    ensures forall i :: 0 <= i < |s| ==> (s[i] in keep <==> i in r)
    ensures forall a, b :: 0 <= a < b < |r| ==> r[a] < r[b]
  {
    if s == [] then []
    else
      var init := Positions(s[..|s| - 1], keep);
      assert forall i :: 0 <= i < |s| - 1 ==> s[..|s| - 1][i] == s[i];
      init + (if s[|s| - 1] in keep then [|s| - 1] else [])
  }

  /** The elements of `s` that occur in `keep`, in order. */
  function Filter<T(==,!new)>(s: seq<T>, keep: seq<T>): (r: seq<T>)
    ensures forall x :: x in r <==> x in s && x in keep
  {
    if s == [] then []
    else
      var init := Filter(s[..|s| - 1], keep);
      assert forall x :: x in s <==> x in s[..|s| - 1] || x == s[|s| - 1] by {
        assert s == s[..|s| - 1] + [s[|s| - 1]];
      }
      init + (if s[|s| - 1] in keep then [s[|s| - 1]] else [])
  }

  /** Reading `s` at the positions gives the filtered elements. */
  lemma {:induction false} PositionsRead<T(!new)>(s: seq<T>, keep: seq<T>)
    ensures |Positions(s, keep)| == |Filter(s, keep)|
    ensures forall k :: 0 <= k < |Filter(s, keep)| ==> s[Positions(s, keep)[k]] == Filter(s, keep)[k]
  {
    if s != [] {
      var n := |s| - 1;
      PositionsRead(s[..n], keep);
      var p := Positions(s[..n], keep);
      var f := Filter(s[..n], keep);
      forall k | 0 <= k < |f|
        ensures s[p[k]] == f[k]
      {
        assert p[k] < n;
        assert s[p[k]] == s[..n][p[k]];
      }
      if s[n] in keep {
        assert Positions(s, keep) == p + [n];
        assert Filter(s, keep) == f + [s[n]];
      } else {
        assert Positions(s, keep) == p;
        assert Filter(s, keep) == f;
      }
    }
  }

  lemma {:induction false} PositionsPermute<T(!new)>(s: seq<T>, keep: seq<T>)
    ensures Permute(s, Positions(s, keep)) == Filter(s, keep)
  {
    PositionsRead(s, keep);
  }

  /** Filtering keeps a strictly increasing sequence strictly increasing. */
  lemma {:induction false} FilterIncreasing(s: seq<int>, keep: seq<int>)
    requires StrictlyIncreasing(s)
    ensures StrictlyIncreasing(Filter(s, keep))
  {
    if s != [] {
      var n := |s| - 1;
      assert StrictlyIncreasing(s[..n]);
      FilterIncreasing(s[..n], keep);
      var f := Filter(s[..n], keep);
      if s[n] in keep {
        assert Filter(s, keep) == f + [s[n]];
        forall i, j | 0 <= i < j < |f| + 1
          ensures (f + [s[n]])[i] < (f + [s[n]])[j]
        {
          if j == |f| {
            assert f[i] in s[..n];
            var m :| 0 <= m < n && s[..n][m] == f[i];
          }
        }
      } else {
        assert Filter(s, keep) == f;
      }
    }
  }

  /** Two strictly increasing sequences with the same elements are equal. */
  lemma {:induction false} IncreasingSame(a: seq<int>, b: seq<int>)
    requires StrictlyIncreasing(a) && StrictlyIncreasing(b)
    requires forall x :: x in a <==> x in b
    ensures a == b
    decreases |a|
  {
    if a != [] || b != [] {
      assert a != [] && b != [] by {
        if a != [] { assert a[0] in a; }
        if b != [] { assert b[0] in b; }
      }
      assert a[0] in a && b[0] in b;
      var k :| 0 <= k < |b| && b[k] == a[0];
      var m :| 0 <= m < |a| && a[m] == b[0];
      assert a[0] <= a[m] && b[0] <= b[k];
      assert StrictlyIncreasing(a[1..]) && StrictlyIncreasing(b[1..]);
      forall x
        ensures x in a[1..] <==> x in b[1..]
      {
        assert x in a[1..] <==> x in a && x != a[0];
        assert x in b[1..] <==> x in b && x != b[0];
      }
      IncreasingSame(a[1..], b[1..]);
      assert a == [a[0]] + a[1..] && b == [b[0]] + b[1..];
    }
  }

  /** A strictly increasing sequence has as many distinct elements as entries. */
  lemma {:induction false} IncreasingCard(s: seq<int>)
    requires StrictlyIncreasing(s)
    ensures |set x | x in s| == |s|
  {
    if s != [] {
      var p := s[..|s| - 1];
      assert StrictlyIncreasing(p);
      IncreasingCard(p);
      assert (set x | x in s) == (set x | x in p) + {s[|s| - 1]};
      assert s[|s| - 1] !in (set x | x in p);
    }
  }

  /** A strictly increasing sequence whose elements all occur in another strictly increasing
      sequence of the same length is that sequence. */
  lemma {:induction false} IncreasingSubset(a: seq<int>, b: seq<int>)
    requires StrictlyIncreasing(a) && StrictlyIncreasing(b) && |a| == |b|
    requires forall x :: x in a ==> x in b
    ensures a == b
  {
    var sa := set x | x in a;
    var sb := set x | x in b;
    IncreasingCard(a);
    IncreasingCard(b);
    assert sb == sa + (sb - sa);
    assert sa * (sb - sa) == {};
    assert |sb - sa| == 0;
    forall x
      ensures x in a <==> x in b
    {
      if x in b {
        assert x in sb;
        assert x !in sb - sa;
      }
    }
    IncreasingSame(a, b);
  }

  // ---------------------------------------------------------------- row assignment

  /** `base` with row `positions[k]` replaced by `rows[k]`, one after the other. */
  function Assign(base: Matrix, positions: seq<nat>, rows: Matrix): (r: Matrix)
    requires |positions| == |rows|
    requires forall k :: 0 <= k < |positions| ==> positions[k] < |base|
    ensures |r| == |base|
    ensures forall i :: 0 <= i < |base| && i !in positions ==> r[i] == base[i]
  {
    if positions == [] then base
    else
      var n := |positions| - 1;
      assert forall i :: i in positions[..n] ==> i in positions;
      Assign(base, positions[..n], rows[..n])[positions[n] := rows[n]]
  }

  /** Rows of one width give a matrix of that width. */
  lemma {:induction false} AssignWidth(base: Matrix, positions: seq<nat>, rows: Matrix, w: nat)
    requires |positions| == |rows|
    requires forall k :: 0 <= k < |positions| ==> positions[k] < |base|
    requires (forall i :: 0 <= i < |base| ==> |base[i]| == w) && forall k :: 0 <= k < |rows| ==> |rows[k]| == w
    ensures forall i :: 0 <= i < |base| ==> |Assign(base, positions, rows)[i]| == w
  {
    if positions != [] {
      var n := |positions| - 1;
      AssignWidth(base, positions[..n], rows[..n], w);
    }
  }

  /** With distinct positions each row lands at its own position. */
  lemma {:induction false} AssignPlaces(base: Matrix, positions: seq<nat>, rows: Matrix)
    requires |positions| == |rows|
    requires forall k :: 0 <= k < |positions| ==> positions[k] < |base|
    requires forall a, b :: 0 <= a < b < |positions| ==> positions[a] < positions[b]
    ensures forall k :: 0 <= k < |positions| ==> Assign(base, positions, rows)[positions[k]] == rows[k]
  {
    if positions != [] {
      var n := |positions| - 1;
      AssignPlaces(base, positions[..n], rows[..n]);
    }
  }

  /** A fully masked matrix. */
  function MaskedAll(times: nat, depths: nat): (m: Matrix)
    ensures |m| == times && forall i :: 0 <= i < times ==> |m[i]| == depths
    ensures forall i, j :: 0 <= i < times && 0 <= j < depths ==> m[i][j].None?
  {
    seq(times, i => seq(depths, j => None))
  }
}
