/** Boolean masks, masked value series and the inclusive date cut shared by several tools of
    the pipeline. A masked numpy array is a `seq<Option<real>>`: `None` is a masked element. */
module Series {
  import opened Wrappers

  /** Number of `true` entries of a mask (`np.sum` / `np.count_nonzero` of a boolean array). */
  function CountTrue(b: seq<bool>): (n: nat)
    ensures n <= |b|
    ensures n == 0 <==> forall j :: 0 <= j < |b| ==> !b[j]
    ensures n == |b| <==> forall j :: 0 <= j < |b| ==> b[j]
  {
    if b == [] then 0
    else (if b[|b| - 1] then 1 else 0) + CountTrue(b[..|b| - 1])
  }

  /** The greatest index holding `true`, or -1 when there is none (`np.where(mask)[0][-1]`
      guarded by an emptiness test). */
  function LastTrue(b: seq<bool>): (r: int)
    ensures -1 <= r < |b|
    ensures r == -1 <==> forall j :: 0 <= j < |b| ==> !b[j]
    ensures r >= 0 ==> b[r] && forall j :: r < j < |b| ==> !b[j]
  {
    if b == [] then -1
    else if b[|b| - 1] then |b| - 1
    else LastTrue(b[..|b| - 1])
  }

  /** Elementwise conjunction of two masks of equal length. */
  function And(a: seq<bool>, b: seq<bool>): (r: seq<bool>)
    requires |a| == |b|
    ensures |r| == |a| && forall j :: 0 <= j < |a| ==> r[j] == (a[j] && b[j])
  {
    seq(|a|, j requires 0 <= j < |a| => a[j] && b[j])
  }

  /** The entries of `s` whose mask entry is `true`, in order (`s[mask]`). */
  function Select<T>(s: seq<T>, mask: seq<bool>): (r: seq<T>)
    requires |s| == |mask|
    ensures |r| <= |s|
  {
    if s == [] then []
    else Select(s[..|s| - 1], mask[..|s| - 1]) + (if mask[|s| - 1] then [s[|s| - 1]] else [])
  }

  /** Moving one element across a concatenation. */
  lemma {:induction false} AppendShift<T>(a: seq<T>, x: T, b: seq<T>)
    ensures a + ([x] + b) == (a + [x]) + b
  {
    assert forall i :: 0 <= i < |a| + 1 + |b| ==> (a + ([x] + b))[i] == ((a + [x]) + b)[i];
  }

  /** A prefix of the tail is a slice. */
  lemma {:induction false} TailPrefix<T>(s: seq<T>, n: nat)
    requires n < |s|
    ensures s[1..][..n] == s[1..n + 1]
  {
  }

  /** Selecting with an all-true mask keeps the whole sequence. */
  lemma {:induction false} SelectAll<T>(s: seq<T>, mask: seq<bool>)
    requires |s| == |mask| && forall j :: 0 <= j < |mask| ==> mask[j]
    ensures Select(s, mask) == s
  {
    if s != [] {
      SelectAll(s[..|s| - 1], mask[..|s| - 1]);
    }
  }

  /** As many entries are selected as the mask holds `true` values. */
  lemma {:induction false} SelectSize<T>(s: seq<T>, mask: seq<bool>)
    requires |s| == |mask|
    ensures |Select(s, mask)| == CountTrue(mask)
  {
    if s != [] {
      SelectSize(s[..|s| - 1], mask[..|s| - 1]);
    }
  }

  /** Every selected entry is an entry of `s`. */
  lemma {:induction false} SelectIn<T>(s: seq<T>, mask: seq<bool>)
    requires |s| == |mask|
    ensures forall x :: x in Select(s, mask) ==> x in s
  {
    if s != [] {
      SelectIn(s[..|s| - 1], mask[..|s| - 1]);
    }
  }

  /** The selected entries are exactly the entries whose mask entry is `true`. */
  lemma {:induction false} SelectMembers<T>(s: seq<T>, mask: seq<bool>)
    requires |s| == |mask|
    ensures forall x :: x in Select(s, mask) ==> exists j :: 0 <= j < |s| && mask[j] && s[j] == x
    ensures forall j :: 0 <= j < |s| && mask[j] ==> s[j] in Select(s, mask)
  {
    if s != [] {
      var n := |s| - 1;
      var ss, mm := s[..n], mask[..n];
      SelectMembers(ss, mm);
      forall x | x in Select(s, mask)
        ensures exists j :: 0 <= j < |s| && mask[j] && s[j] == x
      {
        if x in Select(ss, mm) {
          var j :| 0 <= j < |ss| && mm[j] && ss[j] == x;
          assert mask[j] && s[j] == x;
        } else {
          assert mask[n] && s[n] == x;
        }
      }
      forall j | 0 <= j < |s| && mask[j]
        ensures s[j] in Select(s, mask)
      {
        if j < n {
          assert mm[j] && ss[j] == s[j];
        }
      }
    }
  }

  /** The indices holding `true`, in increasing order (`np.where(mask)[0]`). */
  function TrueIndices(mask: seq<bool>): (r: seq<nat>)
    ensures |r| == CountTrue(mask)
    ensures forall i :: 0 <= i < |r| ==> r[i] < |mask| && mask[r[i]]
    ensures forall i, j :: 0 <= i < j < |r| ==> r[i] < r[j]
  {
    if mask == [] then []
    else
      var init := TrueIndices(mask[..|mask| - 1]);
      if mask[|mask| - 1] then init + [|mask| - 1] else init
  }

  /** Every index holding `true` is listed. */
  lemma {:induction false} TrueIndicesComplete(mask: seq<bool>, k: nat)
    requires k < |mask| && mask[k]
    ensures k in TrueIndices(mask)
  {
    var n := |mask| - 1;
    if k < n {
      TrueIndicesComplete(mask[..n], k);
    }
  }

  /** Sum of reals. */
  function SumReals(s: seq<real>): real {
    if s == [] then 0.0 else SumReals(s[..|s| - 1]) + s[|s| - 1]
  }

  /** `np.mean` of a non-empty sequence of reals. */
  function MeanReals(s: seq<real>): (r: real)
    requires s != []
  {
    SumReals(s) / |s| as real
  }

  /** The mean of a constant sequence is that constant. */
  lemma {:induction false} MeanRealsConstant(s: seq<real>, c: real)
    requires s != [] && forall i :: 0 <= i < |s| ==> s[i] == c
    ensures MeanReals(s) == c
  {
    SumRealsConstant(s, c);
    TimesIsProduct(|s|, c);
    DivideProduct(|s| as real, c);
    assert SumReals(s) == |s| as real * c;
  }

  lemma {:induction false} SumRealsConstant(s: seq<real>, c: real)
    requires forall i :: 0 <= i < |s| ==> s[i] == c
    ensures SumReals(s) == Times(|s|, c)
  {
    if s != [] {
      SumRealsConstant(s[..|s| - 1], c);
    }
  }

  /** The inclusive date cut: a record is kept iff it is not before the first date (when one is
      given) and not after the last date (when one is given). */
  function InCut(t: int, first: Option<int>, last: Option<int>): bool {
    (first.None? || first.value <= t) && (last.None? || t <= last.value)
  }

  function CutMask(times: seq<int>, first: Option<int>, last: Option<int>): (r: seq<bool>)
    ensures |r| == |times|
    ensures forall j :: 0 <= j < |times| ==> r[j] == InCut(times[j], first, last)
  {
    seq(|times|, j requires 0 <= j < |times| => InCut(times[j], first, last))
  }

  /** Number of unmasked elements (`np.ma.count`). */
  function CountValid(s: seq<Option<real>>): (n: nat)
    ensures n <= |s|
    ensures n == 0 <==> forall j :: 0 <= j < |s| ==> s[j].None?
  {
    if s == [] then 0
    else (if s[|s| - 1].Some? then 1 else 0) + CountValid(s[..|s| - 1])
  }

  /** Sum of the unmasked elements. */
  function SumValid(s: seq<Option<real>>): real {
    if s == [] then 0.0
    else (if s[|s| - 1].Some? then s[|s| - 1].value else 0.0) + SumValid(s[..|s| - 1])
  }

  /** `np.ma.mean`: the mean of the unmasked elements, masked when there are none. */
  function MeanValid(s: seq<Option<real>>): (r: Option<real>)
    ensures r.None? <==> forall j :: 0 <= j < |s| ==> s[j].None?
  {
    if CountValid(s) == 0 then None else Some(SumValid(s) / CountValid(s) as real)
  }

  /** `c` added up `n` times. */
  function Times(n: nat, c: real): real {
    if n == 0 then 0.0 else c + Times(n - 1, c)
  }

  lemma {:induction false} TimesIsProduct(n: nat, c: real)
    ensures Times(n, c) == n as real * c
  {
    if n > 0 {
      TimesIsProduct(n - 1, c);
      AddOneTimes(n - 1, c);
    }
  }

  lemma {:induction false} SumValidTimes(s: seq<Option<real>>, c: real)
    requires forall j :: 0 <= j < |s| ==> s[j].None? || s[j].value == c
    ensures SumValid(s) == Times(CountValid(s), c)
  {
    if s != [] {
      var init := s[..|s| - 1];
      assert forall j :: 0 <= j < |init| ==> init[j] == s[j];
      SumValidTimes(init, c);
    }
  }

  /** When every unmasked element equals `c`, their sum is `c` times their number. */
  lemma {:induction false} SumValidConstant(s: seq<Option<real>>, c: real)
    requires forall j :: 0 <= j < |s| ==> s[j].None? || s[j].value == c
    ensures SumValid(s) == CountValid(s) as real * c
  {
    var n := CountValid(s);
    SumValidTimes(s, c);
    TimesIsProduct(n, c);
    assert SumValid(s) == Times(n, c) == n as real * c;
  }

  /** The masked mean of elements that all agree is their common value. */
  lemma {:induction false} MeanValidConstant(s: seq<Option<real>>, c: real)
    requires forall j :: 0 <= j < |s| ==> s[j].None? || s[j].value == c
    requires exists j :: 0 <= j < |s| && s[j].Some?
    ensures MeanValid(s) == Some(c)
  {
    SumValidConstant(s, c);
    var n := CountValid(s) as real;
    assert n > 0.0;
    DivideProduct(n, c);
    assert SumValid(s) == n * c;
    assert MeanValid(s) == Some(SumValid(s) / n);
  }

  lemma {:induction false} AddOneTimes(n: nat, c: real)
    ensures (n + 1) as real * c == c + n as real * c
  {
  }

  lemma {:induction false} DivideProduct(n: real, c: real)
    requires n > 0.0
    ensures (n * c) / n == c
  {
  }

  /** Time by depth; `None` is a masked element. */
  type Matrix = seq<seq<Option<real>>>

  /** Values beyond a thousandth of the fill value 1e20 in magnitude are masked. */
  function MaskFill(x: Option<real>): (r: Option<real>)
    ensures r.Some? <==> x.Some? && -1.0e17 <= x.value <= 1.0e17
    ensures r.Some? ==> r == x
  {
    if x.Some? && (x.value > 1.0e17 || x.value < -1.0e17) then None else x
  }

  function MaskFillAll(m: Matrix): (r: Matrix)
    ensures |r| == |m| && forall i :: 0 <= i < |m| ==> |r[i]| == |m[i]| && forall j :: 0 <= j < |m[i]| ==> r[i][j] == MaskFill(m[i][j])
  {
    seq(|m|, i requires 0 <= i < |m| => seq(|m[i]|, j requires 0 <= j < |m[i]| => MaskFill(m[i][j])))
  }
}
