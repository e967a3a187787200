/** The depth aggregation of an observation file: the records of the selected period, the
    platform position averaged over them, and every variable averaged onto a given list of
    depth levels, each raw sample going to the first listed level whose window holds it. */
module DepthAggregator {
  import opened Wrappers
  import opened Series
  import opened DepthLevels
  import Sorting
  import Numerics

  /** One observation file: the record times in seconds, the platform position of every
      record, the depth of every sample of every record, and the variables on those samples. */
  datatype Profile = Profile(times: seq<int>, lon: seq<real>, lat: seq<real>, depths: seq<seq<real>>,
                             variables: seq<Matrix>)

  predicate WellFormed(p: Profile) {
    |p.lon| == |p.times| && |p.lat| == |p.times| && |p.depths| == |p.times| &&
    forall v :: 0 <= v < |p.variables| ==> Shaped(p.variables[v], p.depths)
  }

  /** The output file: the selected times, the mean position rounded to two decimals, the
      levels as the depth axis, and every variable with one value per record and level. */
  datatype Aggregated = Aggregated(times: seq<int>, lon: real, lat: real, levels: seq<real>, variables: seq<Matrix>)

  /** One variable on the levels: at each record, the mean of the values each level takes. */
  function Columns(data: Matrix, depths: seq<seq<real>>, levels: seq<real>): (r: Matrix)
    requires Shaped(data, depths)
    ensures |r| == |data| && forall t :: 0 <= t < |r| ==> |r[t]| == |levels|
  {
    seq(|data|, t requires 0 <= t < |data| =>
      seq(|levels|, k requires 0 <= k < |levels| => MeansAt(data, depths, levels, k)[t]))
  }

  /** The value at a record and level is the mean of the values whose depth lies first in
      that level's window, and masked when there are none. */
  lemma {:induction false} ColumnsOwned(data: Matrix, depths: seq<seq<real>>, levels: seq<real>, t: nat, k: nat)
    requires Shaped(data, depths) && t < |data| && k < |levels|
    ensures Columns(data, depths, levels)[t][k] == MeanValid(Owned(data[t], depths[t], levels, k))
    ensures Columns(data, depths, levels)[t][k].None? <==>
      forall j :: 0 <= j < |data[t]| ==> data[t][j].None? || FirstLevel(depths[t][j], levels) != k
  {
    MeansAtOwned(data, depths, levels, k, t);
    var o := Owned(data[t], depths[t], levels, k);
    assert forall j :: 0 <= j < |o| ==> o[j] == (if FirstLevel(depths[t][j], levels) == k then data[t][j] else None);
  }

  /** `m` with `column` appended to its records. */
  function AppendColumn(m: Matrix, column: seq<Option<real>>): (r: Matrix)
    requires |column| == |m|
    ensures |r| == |m| && forall t :: 0 <= t < |m| ==> r[t] == m[t] + [column[t]]
  {
    seq(|m|, t requires 0 <= t < |m| => m[t] + [column[t]])
  }

  /** One more level appends its column. */
  lemma {:induction false} ColumnsStep(data: Matrix, depths: seq<seq<real>>, levels: seq<real>, k: nat)
    requires Shaped(data, depths) && k < |levels|
    ensures Columns(data, depths, levels[..k + 1]) ==
      AppendColumn(Columns(data, depths, levels[..k]), MeansAt(data, depths, levels, k))
  {
    var a := Columns(data, depths, levels[..k + 1]);
    var b := AppendColumn(Columns(data, depths, levels[..k]), MeansAt(data, depths, levels, k));
    forall i | 0 <= i <= k
      ensures MeansAt(data, depths, levels[..k + 1], i) == MeansAt(data, depths, levels, i)
    {
      assert levels[..k + 1][..i] == levels[..i];
    }
    forall i | 0 <= i < k
      ensures MeansAt(data, depths, levels[..k], i) == MeansAt(data, depths, levels, i)
    {
      assert levels[..k][..i] == levels[..i];
    }
    var init := Columns(data, depths, levels[..k]);
    forall t | 0 <= t < |data|
      ensures a[t] == b[t]
    {
      assert b[t] == init[t] + [MeansAt(data, depths, levels, k)[t]];
      forall j | 0 <= j <= k
        ensures a[t][j] == b[t][j]
      {
        if j < k {
          assert b[t][j] == init[t][j];
        }
      }
    }
  }

  /** The loop over the levels: each appends its column of means and masks the values it
      took. */
  method AggregateLevels(data: Matrix, depths: seq<seq<real>>, levels: seq<real>) returns (out: Matrix)
    requires Shaped(data, depths)
    ensures out == Columns(data, depths, levels)
  {
    var work := data;
    out := seq(|data|, t => []);
    var k := 0;
    assert levels[..0] == [];
    while k < |levels|
      invariant k <= |levels|
      invariant Shaped(work, depths) && work == Consumed(data, depths, levels[..k])
      invariant out == Columns(data, depths, levels[..k])
    {
      var means := LevelMeans(work, depths, levels[k]);
      ColumnsStep(data, depths, levels, k);
      out := AppendColumn(out, means);
      assert levels[..k + 1][..k] == levels[..k];
      work := Consume(work, depths, levels[k]);
      k := k + 1;
    }
    assert levels[..k] == levels;
  }

  /** The records at the indices `keep`, in that order. */
  function Pick(p: Profile, keep: seq<nat>): (q: Profile)
    requires WellFormed(p) && forall i :: 0 <= i < |keep| ==> keep[i] < |p.times|
    ensures WellFormed(q) && |q.times| == |keep| && |q.variables| == |p.variables|
    ensures forall i :: 0 <= i < |keep| ==> q.times[i] == p.times[keep[i]] && q.depths[i] == p.depths[keep[i]]
    ensures forall v, i :: 0 <= v < |p.variables| && 0 <= i < |keep| ==> q.variables[v][i] == p.variables[v][keep[i]]
  {
    Profile(Sorting.Permute(p.times, keep), Sorting.Permute(p.lon, keep), Sorting.Permute(p.lat, keep),
            Sorting.Permute(p.depths, keep),
            seq(|p.variables|, v requires 0 <= v < |p.variables| => Sorting.Permute(p.variables[v], keep)))
  }

  /** The indices of the records in the selected period. */
  function Kept(p: Profile, first: Option<int>, last: Option<int>): (keep: seq<nat>)
    ensures forall i :: 0 <= i < |keep| ==> keep[i] < |p.times| && InCut(p.times[keep[i]], first, last)
    ensures forall i, j :: 0 <= i < j < |keep| ==> keep[i] < keep[j]
    ensures keep == [] <==> forall i :: 0 <= i < |p.times| ==> !InCut(p.times[i], first, last)
  {
    TrueIndices(CutMask(p.times, first, last))
  }

  /** Every variable on the levels. */
  function AllColumns(variables: seq<Matrix>, depths: seq<seq<real>>, levels: seq<real>): (r: seq<Matrix>)
    requires forall v :: 0 <= v < |variables| ==> Shaped(variables[v], depths)
    ensures |r| == |variables| && forall v :: 0 <= v < |r| ==> r[v] == Columns(variables[v], depths, levels)
  {
    if variables == [] then []
    else AllColumns(variables[..|variables| - 1], depths, levels) + [Columns(variables[|variables| - 1], depths, levels)]
  }

  /** The output of the selected records. */
  function Output(q: Profile, levels: seq<real>): (r: Aggregated)
    requires WellFormed(q) && q.times != []
    ensures |r.variables| == |q.variables|
  {
    Aggregated(q.times, Numerics.RoundDecimals(MeanReals(q.lon), 100), Numerics.RoundDecimals(MeanReals(q.lat), 100),
               levels, AllColumns(q.variables, q.depths, levels))
  }

  /** The run: no output when no record lies in the selected period. */
  function Aggregate(p: Profile, levels: seq<real>, first: Option<int>, last: Option<int>): (r: Result<Aggregated>)
    requires WellFormed(p)
    ensures r.Err? <==> forall i :: 0 <= i < |p.times| ==> !InCut(p.times[i], first, last)
    ensures r.Ok? ==> r.value.levels == levels && |r.value.variables| == |p.variables|
  {
    var keep := Kept(p, first, last);
    if keep == [] then Err("no data in the selected period")
    else Ok(Output(Pick(p, keep), levels))
  }

  /** Every output variable holds one value per selected record and level. */
  lemma {:induction false} AggregateShape(p: Profile, levels: seq<real>, first: Option<int>, last: Option<int>)
    requires WellFormed(p) && Aggregate(p, levels, first, last).Ok?
    ensures var r := Aggregate(p, levels, first, last).value;
      forall v :: 0 <= v < |p.variables| ==>
        |r.variables[v]| == |r.times| && forall t :: 0 <= t < |r.times| ==> |r.variables[v][t]| == |levels|
  {
    var q := Pick(p, Kept(p, first, last));
    assert Aggregate(p, levels, first, last).value == Output(q, levels);
  }

  /** The times the selected records carry are exactly the record times in the period. */
  lemma {:induction false} KeptTimes(p: Profile, first: Option<int>, last: Option<int>)
    requires WellFormed(p)
    ensures var times := Pick(p, Kept(p, first, last)).times;
      (forall i :: 0 <= i < |p.times| && InCut(p.times[i], first, last) ==> p.times[i] in times) &&
      (forall t :: 0 <= t < |times| ==> times[t] in p.times && InCut(times[t], first, last))
  {
    var keep := Kept(p, first, last);
    var times := Pick(p, keep).times;
    forall i | 0 <= i < |p.times| && InCut(p.times[i], first, last)
      ensures p.times[i] in times
    {
      TrueIndicesComplete(CutMask(p.times, first, last), i);
      var m :| 0 <= m < |keep| && keep[m] == i;
      assert times[m] == p.times[i];
    }
  }

  /** The output times are exactly the record times in the period, in file order. */
  lemma {:induction false} AggregateTimes(p: Profile, levels: seq<real>, first: Option<int>, last: Option<int>)
    requires WellFormed(p) && Aggregate(p, levels, first, last).Ok?
    ensures var r := Aggregate(p, levels, first, last).value;
      (forall i :: 0 <= i < |p.times| && InCut(p.times[i], first, last) ==> p.times[i] in r.times) &&
      (forall t :: 0 <= t < |r.times| ==> r.times[t] in p.times && InCut(r.times[t], first, last))
  {
    assert Aggregate(p, levels, first, last).value.times == Pick(p, Kept(p, first, last)).times;
    KeptTimes(p, first, last);
  }

  /** Each output value is the mean of the values of its record whose depth lies first in the
      window of its level. */
  lemma {:induction false} AggregateValues(p: Profile, levels: seq<real>, first: Option<int>, last: Option<int>,
                                           v: nat, t: nat, k: nat)
    requires WellFormed(p) && Aggregate(p, levels, first, last).Ok?
    requires v < |p.variables| && t < |Aggregate(p, levels, first, last).value.times| && k < |levels|
    ensures var keep := Kept(p, first, last);
      t < |keep| &&
      Aggregate(p, levels, first, last).value.times[t] == p.times[keep[t]] &&
      Aggregate(p, levels, first, last).value.variables[v][t][k] ==
        MeanValid(Owned(p.variables[v][keep[t]], p.depths[keep[t]], levels, k))
  {
    var q := Pick(p, Kept(p, first, last));
    assert Aggregate(p, levels, first, last).value == Output(q, levels);
    ColumnsOwned(q.variables[v], q.depths, levels, t, k);
  }

  /** A platform that does not move keeps its rounded position. */
  lemma {:induction false} AggregateFixedPosition(p: Profile, levels: seq<real>, first: Option<int>, last: Option<int>,
                                                  lon: real, lat: real)
    requires WellFormed(p) && Aggregate(p, levels, first, last).Ok?
    requires forall i :: 0 <= i < |p.times| ==> p.lon[i] == lon && p.lat[i] == lat
    ensures Aggregate(p, levels, first, last).value.lon == Numerics.RoundDecimals(lon, 100)
    ensures Aggregate(p, levels, first, last).value.lat == Numerics.RoundDecimals(lat, 100)
  {
    var q := Pick(p, Kept(p, first, last));
    MeanRealsConstant(q.lon, lon);
    MeanRealsConstant(q.lat, lat);
  }

  /** The loop over the variables: each is averaged onto the levels. */
  method AggregateVariables(variables: seq<Matrix>, depths: seq<seq<real>>, levels: seq<real>) returns (out: seq<Matrix>)
    requires forall v :: 0 <= v < |variables| ==> Shaped(variables[v], depths)
    ensures out == AllColumns(variables, depths, levels)
  {
    out := [];
    var v := 0;
    while v < |variables|
      invariant v <= |variables|
      invariant out == AllColumns(variables[..v], depths, levels)
    {
      var column := AggregateLevels(variables[v], depths, levels);
      assert variables[..v + 1][..v] == variables[..v];
      out := out + [column];
      v := v + 1;
    }
    assert variables[..v] == variables;
  }

  /** The run: the selected records, then every variable on the levels. */
  method AggregateProfile(p: Profile, levels: seq<real>, first: Option<int>, last: Option<int>) returns (r: Result<Aggregated>)
    requires WellFormed(p)
    ensures r == Aggregate(p, levels, first, last)
  {
    var keep := Kept(p, first, last);
    if keep == [] {
      return Err("no data in the selected period");
    }
    var q := Pick(p, keep);
    var out := AggregateVariables(q.variables, q.depths, levels);
    r := Ok(Aggregated(q.times, Numerics.RoundDecimals(MeanReals(q.lon), 100), Numerics.RoundDecimals(MeanReals(q.lat), 100),
                       levels, out));
  }
}
