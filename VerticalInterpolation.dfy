/** The vertical interpolation of a model dataset onto given output depths: the deepest input
    level holding data, the output depths that copy the surface or the deepest level instead of
    being interpolated, and the overwrite of those columns. The interpolation itself is a
    parameter. */
module VerticalInterpolation {
  import opened Wrappers
  import opened Series

  // ---------------------------------------------------------------- dimension and variable names

  const DepthDimensionNames: seq<string> := ["depth", "DEPTH", "deptht", "depthu", "depthv", "depthw", "z"]
  const LongitudeNames: seq<string> := ["lon", "LONGITUDE", "nav_lon"]
  const LatitudeNames: seq<string> := ["lat", "LATITUDE", "nav_lat"]
  const DepthNames: seq<string> := ["depth", "DEPH", "deptht", "depthu", "depthv", "depthw", "nav_lev"]
  const TimeNames: seq<string> := ["time", "TIME", "time_counter"]

  /** The chain of `try ... except KeyError`: the index of the first candidate the dataset
      has, or none, in which case the run stops. */
  function FirstKnown(candidates: seq<string>, present: set<string>): (r: Option<nat>)
    ensures r.None? <==> forall k :: 0 <= k < |candidates| ==> candidates[k] !in present
    ensures r.Some? ==> (r.value < |candidates| && candidates[r.value] in present &&
                         forall k :: 0 <= k < r.value ==> candidates[k] !in present)
  {
    if candidates == [] then None
    else if candidates[0] in present then Some(0)
    else
      var rest := FirstKnown(candidates[1..], present);
      assert forall k :: 1 <= k < |candidates| ==> candidates[k] == candidates[1..][k - 1];
      if rest.None? then None else Some(rest.value + 1)
  }

  // ---------------------------------------------------------------- last valid depth

  /** `np.any(np.invert(mask[..., d]))`: some record holds a value at depth index `d`. */
  function ValidAt(m: Matrix, d: nat): (r: bool)
    ensures r <==> exists t :: 0 <= t < |m| && d < |m[t]| && m[t][d].Some?
  {
    if m == [] then false
    else
      assert forall t :: 0 <= t < |m| - 1 ==> m[..|m| - 1][t] == m[t];
      (d < |m[|m| - 1]| && m[|m| - 1][d].Some?) || ValidAt(m[..|m| - 1], d)
  }

  /** The largest depth index below `n` at which `m` holds a value, or -1. */
  function LastValid(m: Matrix, n: nat): (r: int)
    ensures -1 <= r < n
    ensures r >= 0 ==> ValidAt(m, r)
    ensures forall d: nat :: r < d < n ==> !ValidAt(m, d)
  {
    if n == 0 then -1 else if ValidAt(m, n - 1) then n - 1 else LastValid(m, n - 1)
  }

  function Larger(a: int, b: int): int {
    if a < b then b else a
  }

  /** A variable of the input dataset; `data` is indexed by record then by the last axis. */
  datatype Variable = Variable(name: string, dimensions: seq<string>, data: Matrix)

  /** The variables the search looks at: of rank above one, on the time and the depth axis. */
  predicate OnTimeAndDepth(v: Variable, timeName: string, depthName: string) {
    |v.dimensions| > 1 && timeName in v.dimensions && depthName in v.dimensions
  }

  /** The deepest valid level over the variables. */
  function Deepest(vars: seq<Variable>, n: nat, timeName: string, depthName: string): int
  {
    if vars == [] then -1
    else
      var v := vars[|vars| - 1];
      var init := Deepest(vars[..|vars| - 1], n, timeName, depthName);
      if OnTimeAndDepth(v, timeName, depthName) then Larger(init, LastValid(v.data, n)) else init
  }

  /** Some variable holds a value at `d`. */
  predicate SomeVariableValidAt(vars: seq<Variable>, d: nat, timeName: string, depthName: string) {
    exists k :: 0 <= k < |vars| && OnTimeAndDepth(vars[k], timeName, depthName) && ValidAt(vars[k].data, d)
  }

  /** The deepest level is -1 or a level where some considered variable holds a value, and no
      considered variable holds a value below it. */
  lemma {:induction false} DeepestIsLast(vars: seq<Variable>, n: nat, timeName: string, depthName: string)
    ensures var r := Deepest(vars, n, timeName, depthName);
      -1 <= r < n && (r >= 0 ==> SomeVariableValidAt(vars, r, timeName, depthName)) &&
      forall k, d: nat :: 0 <= k < |vars| && OnTimeAndDepth(vars[k], timeName, depthName) && r < d < n ==>
        !ValidAt(vars[k].data, d)
  {
    if vars != [] {
      var i := |vars| - 1;
      var init := vars[..i];
      DeepestIsLast(init, n, timeName, depthName);
      var a := Deepest(init, n, timeName, depthName);
      var r := Deepest(vars, n, timeName, depthName);
      assert forall k :: 0 <= k < i ==> init[k] == vars[k];
      if a >= 0 && r == a {
        var k :| 0 <= k < i && OnTimeAndDepth(init[k], timeName, depthName) && ValidAt(init[k].data, a);
        assert OnTimeAndDepth(vars[k], timeName, depthName) && ValidAt(vars[k].data, r);
      }
      if r >= 0 && r != a {
        assert OnTimeAndDepth(vars[i], timeName, depthName) && ValidAt(vars[i].data, r);
      }
    }
  }

  /** `last_true_depth_index`: the nested loops over the variables and the depth indices. */
  method LastTrueDepthIndex(vars: seq<Variable>, n: nat, timeName: string, depthName: string) returns (last: int)
    ensures last == Deepest(vars, n, timeName, depthName)
  {
    last := -1;
    for i := 0 to |vars|
      invariant last == Deepest(vars[..i], n, timeName, depthName)
    {
      var v := vars[i];
      ghost var before := last;
      for d := 0 to n
        invariant last == if OnTimeAndDepth(v, timeName, depthName) then Larger(before, LastValid(v.data, d)) else before
      {
        if OnTimeAndDepth(v, timeName, depthName) && ValidAt(v.data, d) && last < d {
          last := d;
        }
      }
      assert vars[..i + 1][..i] == vars[..i];
    }
    assert vars[..|vars|] == vars;
  }

  // ---------------------------------------------------------------- copy indices

  /** An output depth above the first input level copies it when both are within 2 m of the
      surface. */
  predicate SurfaceCopy(top: real, z: real) {
    z < top && top < 2.0 && z < 2.0
  }

  /** An output depth below the deepest valid level copies it when it is within 10 % of it (for
      a level above 700 m) or within 20 %. */
  predicate BottomCopy(bottom: real, z: real) {
    z > bottom && ((bottom < 700.0 && z < bottom * 1.1) || z < bottom * 1.2)
  }

  /** For a level at or below the surface the 10 % rule is implied by the 20 % rule: an output
      depth copies the deepest level exactly when it lies within 20 % below it. */
  lemma {:induction false} BottomCopyWithinFifth(bottom: real, z: real)
    requires bottom >= 0.0
    ensures BottomCopy(bottom, z) <==> bottom < z < bottom * 1.2
  {
    assert bottom * 1.1 <= bottom * 1.2;
  }

  /** Python's index `last` into `n` levels: -1 is the last level. */
  function Level(last: int, n: nat): (l: nat)
    requires -1 <= last < n
    requires last == -1 ==> n > 0
    ensures l < n
  {
    if last == -1 then n - 1 else last
  }

  /** `copy_surface_indices`, in increasing order. */
  method SurfaceIndices(top: real, outDepth: seq<real>) returns (idx: seq<nat>)
    ensures forall k :: 0 <= k < |idx| ==> idx[k] < |outDepth| && SurfaceCopy(top, outDepth[idx[k]])
    ensures forall d :: 0 <= d < |outDepth| && SurfaceCopy(top, outDepth[d]) ==> d in idx
    ensures forall a, b :: 0 <= a < b < |idx| ==> idx[a] < idx[b]
  {
    idx := [];
    for d := 0 to |outDepth|
      invariant forall k :: 0 <= k < |idx| ==> idx[k] < d && SurfaceCopy(top, outDepth[idx[k]])
      invariant forall e :: 0 <= e < d && SurfaceCopy(top, outDepth[e]) ==> e in idx
      invariant forall a, b :: 0 <= a < b < |idx| ==> idx[a] < idx[b]
    {
      if SurfaceCopy(top, outDepth[d]) {
        idx := idx + [d];
      }
    }
  }

  /** `copy_bottom_indices`, collected from the deepest output depth up, so in decreasing
      order. */
  method BottomIndices(bottom: real, outDepth: seq<real>) returns (idx: seq<nat>)
    ensures forall k :: 0 <= k < |idx| ==> idx[k] < |outDepth| && BottomCopy(bottom, outDepth[idx[k]])
    ensures forall d :: 0 <= d < |outDepth| && BottomCopy(bottom, outDepth[d]) ==> d in idx
    ensures forall a, b :: 0 <= a < b < |idx| ==> idx[a] > idx[b]
  {
    idx := [];
    for d := |outDepth| downto 0
      invariant forall k :: 0 <= k < |idx| ==> d <= idx[k] < |outDepth| && BottomCopy(bottom, outDepth[idx[k]])
      invariant forall e :: d <= e < |outDepth| && BottomCopy(bottom, outDepth[e]) ==> e in idx
      invariant forall a, b :: 0 <= a < b < |idx| ==> idx[a] > idx[b]
    {
      if BottomCopy(bottom, outDepth[d]) {
        idx := idx + [d];
      }
    }
  }

  /** Both index lists. The first input level is read as soon as there is an output depth, so
      an input without levels fails then. */
  method CopyIndices(inDepth: seq<real>, outDepth: seq<real>, last: int) returns (r: Result<(seq<nat>, seq<nat>)>)
    requires -1 <= last < |inDepth|
    ensures r.Err? <==> inDepth == [] && outDepth != []
    ensures r.Ok? && inDepth != [] ==>
      (forall d :: 0 <= d < |outDepth| ==>
        (d in r.value.0 <==> SurfaceCopy(inDepth[0], outDepth[d])) &&
        (d in r.value.1 <==> BottomCopy(inDepth[Level(last, |inDepth|)], outDepth[d])))
    ensures r.Ok? ==> forall k :: 0 <= k < |r.value.0| ==> r.value.0[k] < |outDepth|
    ensures r.Ok? ==> forall k :: 0 <= k < |r.value.1| ==> r.value.1[k] < |outDepth|
  {
    if outDepth == [] {
      return Ok(([], []));
    }
    if inDepth == [] {
      return Err("IndexError");
    }
    var surface := SurfaceIndices(inDepth[0], outDepth);
    var bottom := BottomIndices(inDepth[Level(last, |inDepth|)], outDepth);
    r := Ok((surface, bottom));
  }

  // ---------------------------------------------------------------- output data

  /** How a variable's output data is obtained before the copies, as written: interpolated and
      masked beyond the fill threshold when there are several input levels, an error when one
      level would have to become several, and otherwise whatever the previous variable left in
      `out_variable_data` (an unbound name when no variable came before). */
  function OutDataAsWritten(hasDepth: bool, inLevels: nat, outLevels: nat, interpolated: Matrix,
                            inData: Matrix, previous: Option<Matrix>): (r: Result<Matrix>)
    ensures !hasDepth ==> r == Ok(inData)
    ensures hasDepth && inLevels == 1 && outLevels > 1 ==> r.Err?
  {
    if !hasDepth then Ok(inData)
    else if inLevels > 1 then Ok(MaskFillAll(interpolated))
    else if inLevels == 1 && outLevels > 1 then Err("one level to several")
    else if previous.None? then Err("UnboundLocalError")
    else Ok(previous.value)
  }

  /** A single input level onto a single output depth writes the previous variable's data: the
      output of a variable holding 1.0 is the 5.0 of the variable before it. */
  lemma {:induction false} StaleSingleLevel()
    ensures OutDataAsWritten(true, 1, 1, [], [[Some(1.0)]], Some([[Some(5.0)]])) == Ok([[Some(5.0)]])
    ensures OutData(true, 1, 1, [], [[Some(1.0)]]) == Ok([[Some(1.0)]])
  {
    var o := OutData(true, 1, 1, [], [[Some(1.0)]]).value;
    assert |o| == 1 && |o[0]| == 1 && o[0][0] == Some(1.0);
    assert o[0] == [Some(1.0)];
    assert o == [[Some(1.0)]];
  }

  /** The output data as intended: a single input level onto at most one output depth is that
      level itself, and an input without levels is an error. */
  function OutData(hasDepth: bool, inLevels: nat, outLevels: nat, interpolated: Matrix, inData: Matrix): (r: Result<Matrix>)
    requires forall t :: 0 <= t < |inData| ==> |inData[t]| == inLevels
    ensures !hasDepth ==> r == Ok(inData)
    ensures hasDepth && inLevels > 1 ==> r.Ok? && |r.value| == |interpolated|
    ensures hasDepth ==> (r.Err? <==> inLevels == 0 || (inLevels == 1 && outLevels > 1))
    ensures hasDepth && inLevels == 1 && r.Ok? ==> |r.value| == |inData|
    ensures hasDepth && inLevels == 1 && r.Ok? ==>
      forall t :: 0 <= t < |inData| ==> |r.value[t]| == outLevels && forall d :: 0 <= d < outLevels ==> r.value[t][d] == inData[t][0]
  {
    if !hasDepth then Ok(inData)
    else if inLevels > 1 then Ok(MaskFillAll(interpolated))
    else if inLevels == 0 then Err("no input level")
    else if outLevels > 1 then Err("one level to several")
    else Ok(seq(|inData|, t requires 0 <= t < |inData| => seq(outLevels, d => inData[t][0])))
  }

  // ---------------------------------------------------------------- overwrite

  /** The value a record has at output depth `d` after the copies: the deepest valid level at
      a bottom index, the first level at a surface index, and the interpolated value
      elsewhere. The bottom copies come second, so they win. */
  function Copied(interpolated: Option<real>, row: seq<Option<real>>, surface: seq<nat>, bottom: seq<nat>,
                  level: nat, d: nat): Option<real>
    requires level < |row|
  {
    if d in bottom then row[level] else if d in surface then row[0] else interpolated
  }

  /** `out_variable_data[..., column] = in_variable_data[..., level]`. */
  method CopyColumn(out: array2<Option<real>>, inData: Matrix, column: nat, level: nat)
    requires out.Length0 == |inData| && column < out.Length1
    requires forall t :: 0 <= t < |inData| ==> level < |inData[t]|
    modifies out
    ensures forall t, d :: 0 <= t < out.Length0 && 0 <= d < out.Length1 ==>
      out[t, d] == if d == column then inData[t][level] else old(out[t, d])
  {
    for t := 0 to out.Length0
      invariant forall s, d :: 0 <= s < out.Length0 && 0 <= d < out.Length1 ==>
        out[s, d] == if d == column && s < t then inData[s][level] else old(out[s, d])
    {
      out[t, column] := inData[t][level];
    }
  }

  /** The two copy loops over the surface and then the bottom indices. */
  method CopyLevels(out: array2<Option<real>>, inData: Matrix, surface: seq<nat>, bottom: seq<nat>, level: nat)
    requires out.Length0 == |inData|
    requires forall t :: 0 <= t < |inData| ==> level < |inData[t]|
    requires forall k :: 0 <= k < |surface| ==> surface[k] < out.Length1
    requires forall k :: 0 <= k < |bottom| ==> bottom[k] < out.Length1
    modifies out
    ensures forall t, d :: 0 <= t < out.Length0 && 0 <= d < out.Length1 ==>
      out[t, d] == Copied(old(out[t, d]), inData[t], surface, bottom, level, d)
  {
    for k := 0 to |surface|
      invariant forall t, d :: 0 <= t < out.Length0 && 0 <= d < out.Length1 ==>
        out[t, d] == if d in surface[..k] then inData[t][0] else old(out[t, d])
    {
      CopyColumn(out, inData, surface[k], 0);
      assert surface[..k + 1] == surface[..k] + [surface[k]];
    }
    assert surface[..|surface|] == surface;
    for k := 0 to |bottom|
      invariant forall t, d :: 0 <= t < out.Length0 && 0 <= d < out.Length1 ==>
        out[t, d] == if d in bottom[..k] then inData[t][level] else (if d in surface then inData[t][0] else old(out[t, d]))
    {
      CopyColumn(out, inData, bottom[k], level);
      assert bottom[..k + 1] == bottom[..k] + [bottom[k]];
    }
    assert bottom[..|bottom|] == bottom;
  }
}
