/** The depth-level resolution of an observation file: whether its depth field is constant,
    well spaced, sufficiently filled and positive, and the list of depth levels to aggregate
    onto, rounded to one decimal. */
module DepthCalc {
  import opened Wrappers
  import opened Series
  import opened DepthLevels
  import opened DepthMerge
  import Sorting
  import Numerics
  import Strings

  /** The depth variable of a file: absent (a surface dataset), one nominal depth per level,
      or one depth per record and level. A masked depth holds the fill value. */
  datatype DepthField = Surface | Nominal(nominal: seq<real>) | Varying(rows: seq<seq<real>>)

  /** A variable of the file: its name, whether it has the time dimension, and its values over
      records and depth levels. */
  datatype FileVariable = FileVariable(name: string, timed: bool, data: Matrix)

  datatype Observation = Observation(depth: DepthField, records: nat, variables: seq<FileVariable>)

  /** The four switches and the resolved levels. */
  datatype DepthInformation =
    DepthInformation(constant: bool, goodSpaced: bool, goodData: bool, positive: bool, depths: seq<real>)

  // ---------------------------------------------------------------- the depth field

  function Width(rows: seq<seq<real>>): nat {
    if rows == [] then 0 else |rows[0]|
  }

  predicate Uniform(rows: seq<seq<real>>) {
    forall t :: 0 <= t < |rows| ==> |rows[t]| == Width(rows)
  }

  /** The depth of every sample of every record. */
  function Rows(depth: DepthField, records: nat): (rows: seq<seq<real>>)
    ensures depth.Varying? ==> rows == depth.rows
    ensures !depth.Varying? ==> |rows| == records
  {
    match depth
    case Surface => seq(records, t => [])
    case Nominal(nominal) => seq(records, t => nominal)
    case Varying(rows) => rows
  }

  /** All the raw depths, record after record. */
  function Flatten(rows: seq<seq<real>>): seq<real> {
    if rows == [] then [] else Flatten(rows[..|rows| - 1]) + rows[|rows| - 1]
  }

  function Flat(depth: DepthField): seq<real> {
    match depth
    case Surface => []
    case Nominal(nominal) => nominal
    case Varying(rows) => Flatten(rows)
  }

  /** Every sample depth is one of the raw depths. */
  predicate Covered(rows: seq<seq<real>>, flat: seq<real>) {
    forall t, j :: 0 <= t < |rows| && 0 <= j < |rows[t]| ==> rows[t][j] in flat
  }

  lemma {:induction false} FlattenCovers(rows: seq<seq<real>>)
    ensures Covered(rows, Flatten(rows))
  {
    if rows != [] {
      var n := |rows| - 1;
      FlattenCovers(rows[..n]);
      forall t, j | 0 <= t < |rows| && 0 <= j < |rows[t]|
        ensures rows[t][j] in Flatten(rows)
      {
        if t < n {
          assert rows[..n][t][j] in Flatten(rows[..n]);
        } else {
          assert Flatten(rows)[|Flatten(rows[..n])| + j] == rows[t][j];
        }
      }
    }
  }

  lemma {:induction false} RowsCovered(depth: DepthField, records: nat)
    ensures Covered(Rows(depth, records), Flat(depth))
  {
    if depth.Varying? {
      FlattenCovers(depth.rows);
    }
  }

  // ---------------------------------------------------------------- the variables checked

  predicate Coordinate(name: string) {
    name == "lon" || name == "lat" || name == "depth" || name == "time"
  }

  /** The variables with the time dimension other than the coordinates, in file order. */
  function CheckVariables(variables: seq<FileVariable>): (r: seq<FileVariable>)
    ensures |r| <= |variables|
  {
    if variables == [] then []
    else
      var last := variables[|variables| - 1];
      CheckVariables(variables[..|variables| - 1]) + (if last.timed && !Coordinate(last.name) then [last] else [])
  }

  lemma {:induction false} CheckVariablesMembers(variables: seq<FileVariable>)
    ensures forall x :: x in CheckVariables(variables) <==> x in variables && x.timed && !Coordinate(x.name)
  {
    if variables != [] {
      var n := |variables| - 1;
      CheckVariablesMembers(variables[..n]);
      assert variables == variables[..n] + [variables[n]];
    }
  }

  function CheckedData(obs: Observation): (r: seq<Matrix>)
    ensures |r| == |CheckVariables(obs.variables)|
  {
    var cs := CheckVariables(obs.variables);
    seq(|cs|, i requires 0 <= i < |cs| => cs[i].data)
  }

  predicate AllShaped(vars: seq<Matrix>, rows: seq<seq<real>>) {
    forall v :: 0 <= v < |vars| ==> Shaped(vars[v], rows)
  }

  /** A time-varying depth has one row per record and as many samples in every row; every
      checked variable has a value at every sample. */
  predicate WellFormed(obs: Observation) {
    (obs.depth.Varying? ==> |obs.depth.rows| == obs.records && Uniform(obs.depth.rows)) &&
    AllShaped(CheckedData(obs), Rows(obs.depth, obs.records))
  }

  // ---------------------------------------------------------------- constancy

  function Column(rows: seq<seq<real>>, j: nat): (col: seq<real>)
    requires Uniform(rows) && j < Width(rows)
    ensures |col| == |rows| && forall t :: 0 <= t < |rows| ==> col[t] == rows[t][j]
  {
    seq(|rows|, t requires 0 <= t < |rows| => rows[t][j])
  }

  predicate ConstantColumn(col: seq<real>) {
    forall t, s :: 0 <= t < |col| && 0 <= s < |col| ==> col[t] == col[s]
  }

  /** The depth is constant in time when every depth column holds a single value. */
  predicate ConstantDepth(depth: DepthField)
    requires depth.Varying? ==> Uniform(depth.rows)
  {
    depth.Varying? ==> forall j :: 0 <= j < Width(depth.rows) ==> ConstantColumn(Column(depth.rows, j))
  }

  /** A column has more than one distinct value exactly when two of its values differ. */
  lemma {:induction false} DistinctValuesConstant(col: seq<real>)
    ensures |Sorting.SortedDistinct(col)| > 1 <==> !ConstantColumn(col)
  {
    var r := Sorting.SortedDistinct(col);
    if |r| > 1 {
      assert r[0] in col && r[1] in col;
      var t :| 0 <= t < |col| && col[t] == r[0];
      var s :| 0 <= s < |col| && col[s] == r[1];
      assert col[t] != col[s];
    }
    if !ConstantColumn(col) {
      var t, s :| 0 <= t < |col| && 0 <= s < |col| && col[t] != col[s];
      assert col[t] in r && col[s] in r;
      if |r| <= 1 {
        assert false;
      }
    }
  }

  /** The constancy loop over the depth columns, stopping at the first varying one. */
  method DepthIsConstant(depth: DepthField) returns (constant: bool)
    requires depth.Varying? ==> Uniform(depth.rows)
    ensures constant == ConstantDepth(depth)
  {
    constant := true;
    if depth.Varying? {
      var rows := depth.rows;
      var j := 0;
      while j < Width(rows)
        invariant j <= Width(rows)
        invariant forall i :: 0 <= i < j ==> ConstantColumn(Column(rows, i))
      {
        DistinctValuesConstant(Column(rows, j));
        if |Sorting.SortedDistinct(Column(rows, j))| > 1 {
          constant := false;
          break;
        }
        j := j + 1;
      }
    }
  }

  // ---------------------------------------------------------------- the resolved levels

  /** The candidates when they are well spaced, their merge otherwise. */
  function Resolved(flat: seq<real>): (levels: seq<real>)
    ensures Sorting.IncreasingReals(levels)
  {
    var u := Candidates(flat);
    CandidatesWeighted(flat);
    if GoodSpaced(u) then u
    else
      MergeFromBounds(u, Counts(flat, u), 0);
      MergeFrom(u, Counts(flat, u), 0)
  }

  /** Every resolved level holds a raw depth in its window. */
  lemma {:induction false} ResolvedSampled(flat: seq<real>)
    ensures forall k :: 0 <= k < |Resolved(flat)| ==> AnyInWindow(flat, Resolved(flat)[k])
  {
    var u := Candidates(flat);
    var levels := Resolved(flat);
    CandidatesWeighted(flat);
    if !GoodSpaced(u) {
      MergeFromInWindow(u, Counts(flat, u), 0);
    }
    forall k | 0 <= k < |levels|
      ensures AnyInWindow(flat, levels[k])
    {
      var d: real;
      if GoodSpaced(u) {
        d := u[k];
        LevelInOwnWindow(d);
      } else {
        assert HasCandidate(u, 0, levels[k]);
        var j :| 0 <= j < |u| && InWindow(u[j], levels[k]);
        d := u[j];
      }
      assert d in u;
      var i :| 0 <= i < |flat| && flat[i] == d;
    }
  }

  /** Every level lies below `bound`. */
  predicate AllBelow(levels: seq<real>, bound: real) {
    forall k :: 0 <= k < |levels| ==> levels[k] < bound
  }

  /** Merging leaves fewer levels than candidates, all below the last candidate. */
  lemma {:induction false} ResolvedMerged(flat: seq<real>, u: seq<real>)
    requires u == Candidates(flat) && !GoodSpaced(u)
    ensures |Resolved(flat)| < |u| && AllBelow(Resolved(flat), u[|u| - 1])
  {
    CandidatesWeighted(flat);
    var c := Counts(flat, u);
    var r := MergeFrom(u, c, 0);
    assert Resolved(flat) == r;
    MergeFromBounds(u, c, 0);
    assert AllBelow(r, u[|u| - 1]);
  }

  // ---------------------------------------------------------------- the first sufficiency pass

  /** At least 1% of the records. */
  predicate Enough(count: nat, records: nat) {
    100 * count >= records
  }

  /** A level passes for a variable when some raw depth lies in its window and at least 1% of
      the records have a value there not taken by an earlier level. */
  predicate LevelGood(data: Matrix, rows: seq<seq<real>>, flat: seq<real>, levels: seq<real>, k: nat)
    requires Shaped(data, rows) && k < |levels|
  {
    AnyInWindow(flat, levels[k]) && Enough(CountValid(MeansAt(data, rows, levels, k)), |rows|)
  }

  /** A variable passes when every level passes. */
  predicate VariableGood(data: Matrix, rows: seq<seq<real>>, flat: seq<real>, levels: seq<real>)
    requires Shaped(data, rows)
  {
    forall k :: 0 <= k < |levels| ==> LevelGood(data, rows, flat, levels, k)
  }

  /** Which levels pass for a variable. */
  function Passes(data: Matrix, rows: seq<seq<real>>, flat: seq<real>, levels: seq<real>): (p: seq<bool>)
    requires Shaped(data, rows)
    ensures |p| == |levels| && forall k :: 0 <= k < |levels| ==> p[k] == LevelGood(data, rows, flat, levels, k)
  {
    seq(|levels|, k requires 0 <= k < |levels| => LevelGood(data, rows, flat, levels, k))
  }

  /** The first `k` entries hold. */
  predicate AllUpTo(p: seq<bool>, k: nat)
    requires k <= |p|
  {
    k == 0 || (AllUpTo(p, k - 1) && p[k - 1])
  }

  lemma {:induction false} AllUpToAll(p: seq<bool>, k: nat)
    requires k <= |p|
    ensures AllUpTo(p, k) <==> forall i :: 0 <= i < k ==> p[i]
  {
    if k > 0 {
      AllUpToAll(p, k - 1);
    }
  }

  predicate GoodData(vars: seq<Matrix>, rows: seq<seq<real>>, flat: seq<real>, levels: seq<real>)
    requires AllShaped(vars, rows)
  {
    forall v :: 0 <= v < |vars| ==> VariableGood(vars[v], rows, flat, levels)
  }

  /** One more level consumed. */
  lemma {:induction false} ConsumedStep(data: Matrix, rows: seq<seq<real>>, levels: seq<real>, k: nat)
    requires Shaped(data, rows) && k < |levels|
    ensures Consumed(data, rows, levels[..k + 1]) == Consume(Consumed(data, rows, levels[..k]), rows, levels[k])
  {
    assert levels[..k + 1][..k] == levels[..k];
  }

  /** The first pass over one variable, stopping at the first level that fails. */
  method FirstPassVariable(data: Matrix, rows: seq<seq<real>>, flat: seq<real>, levels: seq<real>)
    returns (good: bool)
    requires Shaped(data, rows)
    ensures good == VariableGood(data, rows, flat, levels)
  {
    good := true;
    ghost var p := Passes(data, rows, flat, levels);
    var work := data;
    var k := 0;
    assert levels[..0] == [];
    while k < |levels|
      invariant k <= |levels|
      invariant Shaped(work, rows) && work == Consumed(data, rows, levels[..k])
      invariant good && AllUpTo(p, k)
    {
      if AnyInWindow(flat, levels[k]) {
        var means := LevelMeans(work, rows, levels[k]);
        assert means == MeansAt(data, rows, levels, k);
        ConsumedStep(data, rows, levels, k);
        work := Consume(work, rows, levels[k]);
        if 100 * CountValid(means) < |means| {
          assert !LevelGood(data, rows, flat, levels, k);
          good := false;
          return;
        }
        assert p[k];
      } else {
        assert !LevelGood(data, rows, flat, levels, k);
        good := false;
        return;
      }
      k := k + 1;
    }
    AllUpToAll(p, k);
    forall i | 0 <= i < |levels|
      ensures LevelGood(data, rows, flat, levels, i)
    {
      assert p[i];
    }
  }

  /** The first pass, stopping at the first variable that fails. */
  method FirstPass(vars: seq<Matrix>, rows: seq<seq<real>>, flat: seq<real>, levels: seq<real>)
    returns (good: bool)
    requires AllShaped(vars, rows)
    ensures good == GoodData(vars, rows, flat, levels)
  {
    good := true;
    var v := 0;
    while v < |vars|
      invariant v <= |vars|
      invariant good == forall w :: 0 <= w < v ==> VariableGood(vars[w], rows, flat, levels)
    {
      good := FirstPassVariable(vars[v], rows, flat, levels);
      if !good {
        break;
      }
      v := v + 1;
    }
  }

  // ---------------------------------------------------------------- the first pass as written

  /** The values of the window of `level` overwritten with the (unmasked) fill value. */
  function FillWindow(work: Matrix, rows: seq<seq<real>>, level: real): (r: Matrix)
    requires Shaped(work, rows)
    ensures Shaped(r, rows)
    ensures forall t, j :: 0 <= t < |work| && 0 <= j < |work[t]| ==>
      r[t][j] == (if InWindow(rows[t][j], level) then Some(FillValue) else work[t][j])
  {
    seq(|work|, t requires 0 <= t < |work| =>
      seq(|work[t]|, j requires 0 <= j < |work[t]| => if InWindow(rows[t][j], level) then Some(FillValue) else work[t][j]))
  }

  predicate AnyMasked(m: Matrix) {
    exists t, j :: 0 <= t < |m| && 0 <= j < |m[t]| && m[t][j].None?
  }

  /** What the first pass does to the values once a level has used them: the masked `where`
      drops an all-false mask, after which masking the window fails and the fill values stay
      unmasked. */
  function ConsumeAsWritten(work: Matrix, rows: seq<seq<real>>, level: real): (r: Matrix)
    requires Shaped(work, rows)
    ensures Shaped(r, rows)
  {
    var filled := FillWindow(work, rows, level);
    if AnyMasked(filled) then Consume(work, rows, level) else filled
  }

  function ConsumedAsWritten(work: Matrix, rows: seq<seq<real>>, levels: seq<real>): (r: Matrix)
    requires Shaped(work, rows)
    ensures Shaped(r, rows)
  {
    if levels == [] then work
    else ConsumeAsWritten(ConsumedAsWritten(work, rows, levels[..|levels| - 1]), rows, levels[|levels| - 1])
  }

  predicate VariableGoodAsWritten(data: Matrix, rows: seq<seq<real>>, flat: seq<real>, levels: seq<real>)
    requires Shaped(data, rows)
  {
    forall k :: 0 <= k < |levels| ==>
      AnyInWindow(flat, levels[k]) &&
      Enough(CountValid(LevelMeans(ConsumedAsWritten(data, rows, levels[..k]), rows, levels[k])), |rows|)
  }

  lemma {:induction false} ExampleWindows()
    ensures InWindow(10.0, 10.0) && InWindow(10.55, 10.0) && !InWindow(30.0, 10.0)
    ensures InWindow(10.0, 10.55) && InWindow(10.55, 10.55) && !InWindow(30.0, 10.55)
    ensures !InWindow(10.0, 30.0) && !InWindow(10.55, 30.0) && InWindow(30.0, 30.0)
  {
    assert Window(10.0) == 0.6 && Window(10.55) == 0.633 && Window(30.0) == 1.8;
  }

  /** The level 10.0 takes the values at 10.0 and 10.55. */
  lemma {:induction false} ExampleConsumed(data: Matrix)
    requires data == [[Some(1.0), Some(2.0), Some(3.0)]]
    ensures Consume(data, [[10.0, 10.55, 30.0]], 10.0) == [[None, None, Some(3.0)]]
    ensures FillWindow(data, [[10.0, 10.55, 30.0]], 10.0) == [[Some(FillValue), Some(FillValue), Some(3.0)]]
    ensures FillWindow(FillWindow(data, [[10.0, 10.55, 30.0]], 10.0), [[10.0, 10.55, 30.0]], 10.55) ==
      FillWindow(data, [[10.0, 10.55, 30.0]], 10.0)
  {
    var rows := [[10.0, 10.55, 30.0]];
    ExampleWindows();
    var c := Consume(data, rows, 10.0);
    assert c[0] == [None, None, Some(3.0)];
    var f := FillWindow(data, rows, 10.0);
    assert f[0] == [Some(FillValue), Some(FillValue), Some(3.0)];
    var g := FillWindow(f, rows, 10.55);
    assert g[0] == f[0];
  }

  lemma {:induction false} ExampleNotMasked()
    ensures !AnyMasked([[Some(FillValue), Some(FillValue), Some(3.0)]])
  {
  }

  /** With nothing left at 10.0 and 10.55, the level 10.55 has no mean. */
  lemma {:induction false} ExampleLeftEmpty()
    ensures CountValid(LevelMeans([[None, None, Some(3.0)]], [[10.0, 10.55, 30.0]], 10.55)) == 0
  {
    ExampleWindows();
    var w := WindowRow([None, None, Some(3.0)], [10.0, 10.55, 30.0], 10.55);
    assert w == [None, None, None];
  }

  /** One record with nominal depths 10.0, 10.55 and 30.0 (well spaced, so these are the
      levels) and a value at each: the level 10.0 takes both 10.0 and 10.55, so the level
      10.55 has nothing left and fails the first pass; as written, nothing is consumed and it
      passes. */
  lemma {:induction false} UnmaskedVariableConsumesNothing()
    ensures var rows, levels := [[10.0, 10.55, 30.0]], [10.0, 10.55, 30.0];
      var data: Matrix := [[Some(1.0), Some(2.0), Some(3.0)]];
      Shaped(data, rows) &&
      VariableGoodAsWritten(data, rows, levels, levels) && !VariableGood(data, rows, levels, levels)
  {
    var rows, levels := [[10.0, 10.55, 30.0]], [10.0, 10.55, 30.0];
    var data: Matrix := [[Some(1.0), Some(2.0), Some(3.0)]];
    assert Shaped(data, rows);
    ExampleConsumed(data);
    ExampleNotMasked();
    ExampleLeftEmpty();
    assert levels[..0] == [] && levels[..1] == [10.0] && levels[..2] == [10.0, 10.55];
    assert levels[..2][..1] == levels[..1];
    assert Consumed(data, rows, levels[..1]) == [[None, None, Some(3.0)]];
    assert !LevelGood(data, rows, levels, levels, 1);
    var filled := FillWindow(data, rows, 10.0);
    assert ConsumedAsWritten(data, rows, levels[..1]) == filled;
    assert ConsumedAsWritten(data, rows, levels[..2]) == filled;
    forall k | 0 <= k < 3
      ensures AnyInWindow(levels, levels[k]) &&
        Enough(CountValid(LevelMeans(ConsumedAsWritten(data, rows, levels[..k]), rows, levels[k])), |rows|)
    {
      LevelInOwnWindow(levels[k]);
      var w: Matrix := ConsumedAsWritten(data, rows, levels[..k]);
      assert w[0][k].Some?;
      assert WindowRow(w[0], rows[0], levels[k])[k].Some?;
      assert LevelMeans(w, rows, levels[k])[0].Some?;
    }
  }

  // ---------------------------------------------------------------- the second pass

  function NatMax(a: nat, b: nat): (r: nat)
    ensures r >= a && r >= b && (r == a || r == b)
  {
    if a < b then b else a
  }

  /** The number of records with a mean at each level, once the earlier levels have taken
      their values. */
  function LevelCounts(work: Matrix, rows: seq<seq<real>>, levels: seq<real>): (c: seq<nat>)
    requires Shaped(work, rows)
    ensures |c| == |levels|
    decreases |levels|
  {
    if levels == [] then []
    else [CountValid(LevelMeans(work, rows, levels[0]))] + LevelCounts(Consume(work, rows, levels[0]), rows, levels[1..])
  }

  lemma {:induction false} LevelCountsHead(work: Matrix, rows: seq<seq<real>>, levels: seq<real>, i: nat)
    requires Shaped(work, rows) && i < |levels|
    ensures i == 0 ==> LevelCounts(work, rows, levels)[i] == CountValid(LevelMeans(work, rows, levels[0]))
    ensures i > 0 ==> LevelCounts(work, rows, levels)[i] == LevelCounts(Consume(work, rows, levels[0]), rows, levels[1..])[i - 1]
  {
  }

  /** Visiting the first level and then the next `n` is visiting the first `n + 1`. */
  lemma {:induction false} ConsumedFront(data: Matrix, rows: seq<seq<real>>, levels: seq<real>, n: nat)
    requires Shaped(data, rows) && n < |levels|
    ensures Consumed(data, rows, levels[..n + 1]) == Consumed(Consume(data, rows, levels[0]), rows, levels[1..n + 1])
  {
    var first := Consume(data, rows, levels[0]);
    if n == 0 {
      assert levels[..1][..0] == [] && levels[..1][0] == levels[0];
      assert levels[1..1] == [];
    } else {
      ConsumedFront(data, rows, levels, n - 1);
      assert levels[..n + 1][..n] == levels[..n] && levels[..n + 1][n] == levels[n];
      var rest := levels[1..n + 1];
      assert rest[..n - 1] == levels[1..n] && rest[n - 1] == levels[n];
      assert Consumed(first, rows, rest) == Consume(Consumed(first, rows, levels[1..n]), rows, levels[n]);
    }
  }

  /** Entry `k` counts the records with a mean at the `k`-th level. */
  lemma {:induction false} LevelCountsAt(data: Matrix, rows: seq<seq<real>>, levels: seq<real>, k: nat)
    requires Shaped(data, rows) && k < |levels|
    ensures LevelCounts(data, rows, levels)[k] == CountValid(MeansAt(data, rows, levels, k))
    decreases k
  {
    LevelCountsHead(data, rows, levels, k);
    if k == 0 {
      assert levels[..0] == [];
    } else {
      var first := Consume(data, rows, levels[0]);
      LevelCountsAt(first, rows, levels[1..], k - 1);
      ConsumedFront(data, rows, levels, k - 1);
      TailPrefix(levels, k - 1);
      assert levels[1..][k - 1] == levels[k];
      assert MeansAt(first, rows, levels[1..], k - 1) == MeansAt(data, rows, levels, k);
    }
  }

  /** The level counts of every variable. */
  function Table(vars: seq<Matrix>, rows: seq<seq<real>>, levels: seq<real>): (table: seq<seq<nat>>)
    requires AllShaped(vars, rows)
    ensures |table| == |vars| && forall v :: 0 <= v < |vars| ==> table[v] == LevelCounts(vars[v], rows, levels)
  {
    seq(|vars|, v requires 0 <= v < |vars| => LevelCounts(vars[v], rows, levels))
  }

  predicate Wide(table: seq<seq<nat>>, k: nat) {
    forall v :: 0 <= v < |table| ==> k < |table[v]|
  }

  /** Entry `k` of a row, 0 past its end. */
  function Entry(row: seq<nat>, k: nat): nat {
    if k < |row| then row[k] else 0
  }

  /** The largest entry of column `k`, 0 for no rows. */
  function ColumnMax(table: seq<seq<nat>>, k: nat): nat {
    if table == [] then 0 else NatMax(ColumnMax(table[..|table| - 1], k), Entry(table[|table| - 1], k))
  }

  lemma {:induction false} ColumnMaxBounds(table: seq<seq<nat>>, k: nat)
    requires Wide(table, k)
    ensures forall v :: 0 <= v < |table| ==> table[v][k] <= ColumnMax(table, k)
  {
    if table != [] {
      var n := |table| - 1;
      ColumnMaxBounds(table[..n], k);
      assert forall v :: 0 <= v < n ==> table[v] == table[..n][v];
    }
  }

  lemma {:induction false} ColumnMaxAttained(table: seq<seq<nat>>, k: nat)
    requires Wide(table, k)
    ensures table == [] ==> ColumnMax(table, k) == 0
    ensures table != [] ==> exists v :: 0 <= v < |table| && table[v][k] == ColumnMax(table, k)
  {
    if table != [] {
      var n := |table| - 1;
      if ColumnMax(table, k) != table[n][k] {
        ColumnMaxAttained(table[..n], k);
        var v :| 0 <= v < n && table[..n][v][k] == ColumnMax(table[..n], k);
        assert table[v] == table[..n][v];
      }
    }
  }

  lemma {:induction false} ColumnMaxStep(table: seq<seq<nat>>, v: nat, k: nat)
    requires v < |table| && k < |table[v]|
    ensures ColumnMax(table[..v + 1], k) == NatMax(ColumnMax(table[..v], k), table[v][k])
  {
    assert table[..v + 1][..v] == table[..v];
  }

  /** The largest number of records with a value at the `k`-th level, over the variables. */
  function Best(vars: seq<Matrix>, rows: seq<seq<real>>, levels: seq<real>, k: nat): nat
    requires AllShaped(vars, rows) && k < |levels|
  {
    ColumnMax(Table(vars, rows, levels), k)
  }

  /** No variable has more records at the level than `Best`. */
  lemma {:induction false} BestBounds(vars: seq<Matrix>, rows: seq<seq<real>>, levels: seq<real>, k: nat)
    requires AllShaped(vars, rows) && k < |levels|
    ensures forall v :: 0 <= v < |vars| ==> CountValid(MeansAt(vars[v], rows, levels, k)) <= Best(vars, rows, levels, k)
  {
    var table := Table(vars, rows, levels);
    ColumnMaxBounds(table, k);
    forall v | 0 <= v < |vars|
      ensures CountValid(MeansAt(vars[v], rows, levels, k)) <= Best(vars, rows, levels, k)
    {
      LevelCountsAt(vars[v], rows, levels, k);
      assert table[v][k] <= ColumnMax(table, k);
    }
  }

  /** Some variable has as many records at the level as `Best`, which is 0 without variables. */
  lemma {:induction false} BestAttained(vars: seq<Matrix>, rows: seq<seq<real>>, levels: seq<real>, k: nat)
    requires AllShaped(vars, rows) && k < |levels|
    ensures vars == [] ==> Best(vars, rows, levels, k) == 0
    ensures vars != [] ==> exists v :: 0 <= v < |vars| && CountValid(MeansAt(vars[v], rows, levels, k)) == Best(vars, rows, levels, k)
  {
    var table := Table(vars, rows, levels);
    ColumnMaxAttained(table, k);
    if vars != [] {
      var v :| 0 <= v < |table| && table[v][k] == ColumnMax(table, k);
      LevelCountsAt(vars[v], rows, levels, k);
      assert CountValid(MeansAt(vars[v], rows, levels, k)) == Best(vars, rows, levels, k);
    }
  }

  function BestCounts(vars: seq<Matrix>, rows: seq<seq<real>>, levels: seq<real>): (best: seq<nat>)
    requires AllShaped(vars, rows)
    ensures |best| == |levels| && forall k :: 0 <= k < |levels| ==> best[k] == Best(vars, rows, levels, k)
  {
    seq(|levels|, k requires 0 <= k < |levels| => Best(vars, rows, levels, k))
  }

  /** Whether the second pass computes a mean at all: some variable, and a level with some raw
      depth in its window. */
  predicate MeanComputed(vars: seq<Matrix>, flat: seq<real>, levels: seq<real>) {
    vars != [] && SomeWindow(flat, levels)
  }

  /** Some level has a raw depth in its window. */
  predicate SomeWindow(flat: seq<real>, levels: seq<real>) {
    exists k :: 0 <= k < |levels| && AnyInWindow(flat, levels[k])
  }

  lemma {:induction false} SomeWindowStep(flat: seq<real>, levels: seq<real>, k: nat)
    requires k < |levels|
    ensures SomeWindow(flat, levels[..k + 1]) <==> SomeWindow(flat, levels[..k]) || AnyInWindow(flat, levels[k])
  {
    assert levels[..k + 1][k] == levels[k];
    assert forall i :: 0 <= i < k ==> levels[..k + 1][i] == levels[..k][i];
  }

  /** A level without any raw depth in its window takes nothing and has no mean. */
  lemma {:induction false} EmptyWindow(work: Matrix, rows: seq<seq<real>>, flat: seq<real>, level: real)
    requires Shaped(work, rows) && Covered(rows, flat) && !AnyInWindow(flat, level)
    ensures Consume(work, rows, level) == work
    ensures CountValid(LevelMeans(work, rows, level)) == 0
  {
    forall t, j | 0 <= t < |rows| && 0 <= j < |rows[t]|
      ensures !InWindow(rows[t][j], level)
    {
      var i :| 0 <= i < |flat| && flat[i] == rows[t][j];
    }
    var c := Consume(work, rows, level);
    forall t | 0 <= t < |work|
      ensures c[t] == work[t]
    {
      assert |c[t]| == |work[t]|;
    }
    var m := LevelMeans(work, rows, level);
    forall t | 0 <= t < |work|
      ensures m[t].None?
    {
      var w := WindowRow(work[t], rows[t], level);
      assert forall j :: 0 <= j < |w| ==> w[j].None?;
    }
  }

  /** A level without any raw depth in its window counts nothing and takes nothing. */
  lemma {:induction false} CountStep(work: Matrix, rows: seq<seq<real>>, flat: seq<real>, levels: seq<real>)
    requires Shaped(work, rows) && Covered(rows, flat) && levels != []
    ensures LevelCounts(work, rows, levels) ==
      [if AnyInWindow(flat, levels[0]) then CountValid(LevelMeans(work, rows, levels[0])) else 0] +
      LevelCounts(if AnyInWindow(flat, levels[0]) then Consume(work, rows, levels[0]) else work, rows, levels[1..])
  {
    if !AnyInWindow(flat, levels[0]) {
      EmptyWindow(work, rows, flat, levels[0]);
    }
  }

  /** The second pass over one variable: the number of records with a mean at each level that
      has a raw depth in its window (0 elsewhere), and whether there is such a level. */
  method VariableCounts(data: Matrix, rows: seq<seq<real>>, flat: seq<real>, levels: seq<real>)
    returns (counts: seq<nat>, computed: bool)
    requires Shaped(data, rows) && Covered(rows, flat)
    ensures counts == LevelCounts(data, rows, levels)
    ensures computed == SomeWindow(flat, levels)
  {
    counts := [];
    computed := false;
    var work := data;
    var k := 0;
    assert levels[..0] == [];
    while k < |levels|
      invariant k <= |levels|
      invariant Shaped(work, rows) && counts + LevelCounts(work, rows, levels[k..]) == LevelCounts(data, rows, levels)
      invariant computed == SomeWindow(flat, levels[..k])
    {
      SomeWindowStep(flat, levels, k);
      CountStep(work, rows, flat, levels[k..]);
      assert levels[k..][0] == levels[k] && levels[k..][1..] == levels[k + 1..];
      var count := 0;
      var next := work;
      if AnyInWindow(flat, levels[k]) {
        count := CountValid(LevelMeans(work, rows, levels[k]));
        next := Consume(work, rows, levels[k]);
        computed := true;
      }
      AppendShift(counts, count, LevelCounts(next, rows, levels[k + 1..]));
      counts := counts + [count];
      work := next;
      k := k + 1;
    }
    assert counts + LevelCounts(work, rows, levels[k..]) == counts;
    assert levels[..k] == levels;
  }

  /** Raises every best count to the variable's count where that is larger. */
  method RaiseBest(numbers: array<nat>, counts: seq<nat>)
    requires numbers.Length == |counts|
    modifies numbers
    ensures forall k :: 0 <= k < |counts| ==> numbers[k] == NatMax(old(numbers[k]), counts[k])
  {
    var k := 0;
    while k < |counts|
      invariant k <= |counts|
      invariant forall i :: 0 <= i < k ==> numbers[i] == NatMax(old(numbers[i]), counts[i])
      invariant forall i :: k <= i < |counts| ==> numbers[i] == old(numbers[i])
    {
      if numbers[k] < counts[k] {
        numbers[k] := counts[k];
      }
      k := k + 1;
    }
  }

  /** The second pass: for every level, the largest number of records with a value there over
      the variables, and whether any mean was computed. */
  method SecondPass(vars: seq<Matrix>, rows: seq<seq<real>>, flat: seq<real>, levels: seq<real>)
    returns (best: seq<nat>, computed: bool)
    requires AllShaped(vars, rows) && Covered(rows, flat)
    ensures best == BestCounts(vars, rows, levels)
    ensures computed == MeanComputed(vars, flat, levels)
  {
    ghost var table := Table(vars, rows, levels);
    var numbers := new nat[|levels|](k => 0);
    computed := false;
    var v := 0;
    assert table[..0] == [];
    while v < |vars|
      invariant v <= |vars|
      invariant forall k :: 0 <= k < |levels| ==> numbers[k] == ColumnMax(table[..v], k)
      invariant computed == (v > 0 && SomeWindow(flat, levels))
    {
      var counts, any := VariableCounts(vars[v], rows, flat, levels);
      assert counts == table[v];
      ghost var before := numbers[..];
      RaiseBest(numbers, counts);
      TableStep(table, v, before, numbers[..]);
      computed := computed || any;
      ghost var done := v;
      v := v + 1;
      assert table[..v] == table[..done + 1];
    }
    assert table[..v] == table;
    best := numbers[..];
    BestCountsColumns(vars, rows, levels, best);
  }

  /** One more row of the table folded into the column maxima. */
  lemma {:induction false} TableStep(table: seq<seq<nat>>, v: nat, before: seq<nat>, after: seq<nat>)
    requires v < |table| && |before| == |after| == |table[v]|
    requires forall k :: 0 <= k < |before| ==> before[k] == ColumnMax(table[..v], k)
    requires forall k :: 0 <= k < |after| ==> after[k] == NatMax(before[k], table[v][k])
    ensures forall k :: 0 <= k < |after| ==> after[k] == ColumnMax(table[..v + 1], k)
  {
    forall k | 0 <= k < |after|
      ensures after[k] == ColumnMax(table[..v + 1], k)
    {
      ColumnMaxStep(table, v, k);
    }
  }

  lemma {:induction false} BestCountsColumns(vars: seq<Matrix>, rows: seq<seq<real>>, levels: seq<real>, best: seq<nat>)
    requires AllShaped(vars, rows) && |best| == |levels|
    requires forall k :: 0 <= k < |levels| ==> best[k] == ColumnMax(Table(vars, rows, levels), k)
    ensures best == BestCounts(vars, rows, levels)
  {
  }

  // ---------------------------------------------------------------- the level filter

  /** The levels where some variable has at least 1% of the records. */
  function Sufficient(best: seq<nat>, records: nat): (mask: seq<bool>)
    ensures |mask| == |best| && forall k :: 0 <= k < |best| ==> mask[k] == Enough(best[k], records)
  {
    seq(|best|, k requires 0 <= k < |best| => Enough(best[k], records))
  }

  /** The filtering loop. */
  method KeepSufficient(levels: seq<real>, best: seq<nat>, records: nat) returns (good: seq<real>)
    requires |best| == |levels|
    ensures good == Select(levels, Sufficient(best, records))
  {
    var mask := Sufficient(best, records);
    good := [];
    var k := 0;
    while k < |levels|
      invariant k <= |levels|
      invariant good == Select(levels[..k], mask[..k])
    {
      assert levels[..k + 1][..k] == levels[..k] && mask[..k + 1][..k] == mask[..k];
      if 100 * best[k] >= records {
        good := good + [levels[k]];
      }
      k := k + 1;
    }
    assert levels[..k] == levels && mask[..k] == mask;
  }

  /** The levels that survive the sufficiency test: all of them when the first pass holds,
      otherwise those where some variable has at least 1% of the records. */
  function SufficientLevels(vars: seq<Matrix>, rows: seq<seq<real>>, flat: seq<real>, levels: seq<real>): (r: seq<real>)
    requires AllShaped(vars, rows)
  {
    if GoodData(vars, rows, flat, levels) then levels
    else Select(levels, Sufficient(BestCounts(vars, rows, levels), |rows|))
  }

  /** When the filter applies, a level is kept exactly when some variable has at least 1% of
      the records there. */
  lemma {:induction false} SufficientLevelsFilter(vars: seq<Matrix>, rows: seq<seq<real>>, flat: seq<real>,
                                                  levels: seq<real>, k: nat)
    requires AllShaped(vars, rows) && k < |levels| && !GoodData(vars, rows, flat, levels)
    ensures Sufficient(BestCounts(vars, rows, levels), |rows|)[k] <==>
      exists v :: 0 <= v < |vars| && Enough(CountValid(MeansAt(vars[v], rows, levels, k)), |rows|)
  {
    BestBounds(vars, rows, levels, k);
    BestAttained(vars, rows, levels, k);
  }

  /** Filtering keeps the levels increasing. */
  lemma {:induction false} SelectIncreasing(s: seq<real>, mask: seq<bool>)
    requires |s| == |mask| && Sorting.IncreasingReals(s)
    ensures Sorting.IncreasingReals(Select(s, mask))
  {
    if s != [] {
      var n := |s| - 1;
      assert Sorting.IncreasingReals(s[..n]);
      SelectIncreasing(s[..n], mask[..n]);
      SelectIn(s[..n], mask[..n]);
      var init := Select(s[..n], mask[..n]);
      forall i | 0 <= i < |init|
        ensures init[i] < s[n]
      {
        assert init[i] in init;
        var j :| 0 <= j < n && s[..n][j] == init[i];
      }
      var r := init + (if mask[n] then [s[n]] else []);
      assert forall i :: 0 <= i < |init| ==> r[i] == init[i];
    }
  }

  // ---------------------------------------------------------------- sign

  predicate Positive(levels: seq<real>) {
    forall k :: 0 <= k < |levels| ==> levels[k] >= 0.0
  }

  /** The sign loop, stopping at the first negative level. */
  method DepthIsPositive(levels: seq<real>) returns (positive: bool)
    ensures positive == Positive(levels)
  {
    positive := true;
    var k := 0;
    while k < |levels|
      invariant k <= |levels|
      invariant forall i :: 0 <= i < k ==> levels[i] >= 0.0
    {
      if levels[k] < 0.0 {
        positive := false;
        break;
      }
      k := k + 1;
    }
  }

  function NonNegative(levels: seq<real>): (mask: seq<bool>)
    ensures |mask| == |levels| && forall k :: 0 <= k < |levels| ==> mask[k] == (levels[k] >= 0.0)
  {
    seq(|levels|, k requires 0 <= k < |levels| => levels[k] >= 0.0)
  }

  /** The loop dropping the negative levels. */
  method DropNegative(levels: seq<real>) returns (r: seq<real>)
    ensures r == Select(levels, NonNegative(levels))
  {
    var mask := NonNegative(levels);
    r := [];
    var k := 0;
    while k < |levels|
      invariant k <= |levels|
      invariant r == Select(levels[..k], mask[..k])
    {
      assert levels[..k + 1][..k] == levels[..k] && mask[..k + 1][..k] == mask[..k];
      if levels[k] < 0.0 {
        k := k + 1;
        continue;
      }
      r := r + [levels[k]];
      k := k + 1;
    }
    assert levels[..k] == levels && mask[..k] == mask;
  }

  /** A variable of the sea: its standard name mentions water or the surface. */
  predicate SeaVariable(name: Option<string>) {
    name.Some? && (Strings.Contains(name.value, "water") || Strings.Contains(name.value, "surface"))
  }

  /** The negative levels are dropped for a sea variable when some resolved level is negative. */
  function SignHandled(levels: seq<real>, name: Option<string>, positive: bool): seq<real> {
    if SeaVariable(name) && !positive then Select(levels, NonNegative(levels)) else levels
  }

  /** `np.round(levels, decimals=1)`. */
  function Rounded(levels: seq<real>): (r: seq<real>)
    ensures |r| == |levels|
    ensures forall k :: 0 <= k < |levels| ==> levels[k] - 0.05 <= r[k] <= levels[k] + 0.05
  {
    seq(|levels|, k requires 0 <= k < |levels| => Numerics.RoundDecimals(levels[k], 10))
  }

  // ---------------------------------------------------------------- the run

  /** The run fails when it reports or filters the levels without ever having computed a
      mean, whose record count it then reads. */
  predicate Fails(vars: seq<Matrix>, rows: seq<seq<real>>, flat: seq<real>, levels: seq<real>, verbose: bool)
    requires AllShaped(vars, rows)
  {
    !MeanComputed(vars, flat, levels) && |levels| > 0 && (verbose || !GoodData(vars, rows, flat, levels))
  }

  /** The levels returned, before rounding. */
  function Final(vars: seq<Matrix>, rows: seq<seq<real>>, flat: seq<real>, name: Option<string>): seq<real>
    requires AllShaped(vars, rows)
  {
    var levels := Resolved(flat);
    SignHandled(SufficientLevels(vars, rows, flat, levels), name, Positive(levels))
  }

  function Outcome(depth: DepthField, vars: seq<Matrix>, rows: seq<seq<real>>, name: Option<string>, verbose: bool)
    : (r: Result<DepthInformation>)
    requires AllShaped(vars, rows) && (depth.Varying? ==> Uniform(depth.rows))
  {
    var flat := Flat(depth);
    var levels := Resolved(flat);
    if Fails(vars, rows, flat, levels, verbose) then Err("the record count of the means is undefined")
    else Ok(DepthInformation(ConstantDepth(depth), GoodSpaced(Candidates(flat)), GoodData(vars, rows, flat, levels),
                             Positive(levels), Rounded(Final(vars, rows, flat, name))))
  }

  /** The depth-level resolution of a file: a surface dataset has the single level 0. */
  function Resolve(obs: Observation, name: Option<string>, verbose: bool): (r: Result<DepthInformation>)
    requires WellFormed(obs)
    ensures obs.depth.Surface? ==> r == Ok(DepthInformation(true, true, true, true, [0.0]))
  {
    if obs.depth.Surface? then Ok(DepthInformation(true, true, true, true, [0.0]))
    else Outcome(obs.depth, CheckedData(obs), Rows(obs.depth, obs.records), name, verbose)
  }

  /** The run fails only for a file without checked variables, in verbose mode, when there are
      levels to report: with a variable, every level has a raw depth in its window and so a
      mean is computed. */
  lemma {:induction false} OutcomeFails(depth: DepthField, vars: seq<Matrix>, rows: seq<seq<real>>,
                                        name: Option<string>, verbose: bool)
    requires AllShaped(vars, rows) && (depth.Varying? ==> Uniform(depth.rows))
    ensures Outcome(depth, vars, rows, name, verbose).Err? <==> vars == [] && verbose && |Resolved(Flat(depth))| > 0
  {
    var flat := Flat(depth);
    var levels := Resolved(flat);
    if vars != [] && |levels| > 0 {
      ResolvedSampled(flat);
      assert AnyInWindow(flat, levels[0]);
    }
  }

  /** The returned levels, before rounding, are strictly increasing and each holds a raw depth
      in its window. */
  lemma {:induction false} FinalLevels(vars: seq<Matrix>, rows: seq<seq<real>>, flat: seq<real>, name: Option<string>)
    requires AllShaped(vars, rows)
    ensures var f := Final(vars, rows, flat, name);
      Sorting.IncreasingReals(f) && forall k :: 0 <= k < |f| ==> AnyInWindow(flat, f[k])
  {
    var levels := Resolved(flat);
    var kept := SufficientLevels(vars, rows, flat, levels);
    var f := Final(vars, rows, flat, name);
    ResolvedSampled(flat);
    if !GoodData(vars, rows, flat, levels) {
      var mask := Sufficient(BestCounts(vars, rows, levels), |rows|);
      SelectIncreasing(levels, mask);
      SelectIn(levels, mask);
    }
    assert forall x :: x in kept ==> x in levels;
    if SeaVariable(name) && !Positive(levels) {
      SelectIncreasing(kept, NonNegative(kept));
      SelectIn(kept, NonNegative(kept));
    }
    assert forall x :: x in f ==> x in levels;
    forall k | 0 <= k < |f|
      ensures AnyInWindow(flat, f[k])
    {
      assert f[k] in f;
      var i :| 0 <= i < |levels| && levels[i] == f[k];
    }
  }

  /** For a sea variable no returned level is negative. */
  lemma {:induction false} SeaLevelsNonNegative(vars: seq<Matrix>, rows: seq<seq<real>>, flat: seq<real>, name: Option<string>)
    requires AllShaped(vars, rows) && SeaVariable(name)
    ensures Positive(Final(vars, rows, flat, name))
    ensures Positive(Rounded(Final(vars, rows, flat, name)))
  {
    var levels := Resolved(flat);
    var kept := SufficientLevels(vars, rows, flat, levels);
    var f := Final(vars, rows, flat, name);
    if Positive(levels) {
      if !GoodData(vars, rows, flat, levels) {
        SelectIn(levels, Sufficient(BestCounts(vars, rows, levels), |rows|));
      }
      forall k | 0 <= k < |f|
        ensures f[k] >= 0.0
      {
        assert f[k] in kept;
        var i :| 0 <= i < |levels| && levels[i] == f[k];
      }
    } else {
      SelectMembers(kept, NonNegative(kept));
      forall k | 0 <= k < |f|
        ensures f[k] >= 0.0
      {
        assert f[k] in f;
        var j :| 0 <= j < |kept| && NonNegative(kept)[j] && kept[j] == f[k];
      }
    }
    forall k | 0 <= k < |f|
      ensures Rounded(f)[k] >= 0.0
    {
      Numerics.RoundDecimalsNonNegative(f[k], 10);
    }
  }

  /** The candidate levels, merged when they are not well spaced. */
  method ResolveLevels(flat: seq<real>) returns (levels: seq<real>, spaced: bool)
    ensures levels == Resolved(flat)
    ensures spaced == GoodSpaced(Candidates(flat))
  {
    var u := Candidates(flat);
    var c := Counts(flat, u);
    CandidatesWeighted(flat);
    spaced := GoodSpacing(u);
    levels := u;
    if !spaced {
      levels := Merge(u, c);
    }
  }

  /** The sufficiency filter, unless the first pass held, then the sign filter. */
  method FilterLevels(levels: seq<real>, best: seq<nat>, good: bool, records: nat, name: Option<string>, positive: bool)
    returns (final: seq<real>)
    requires |best| == |levels|
    ensures final == SignHandled(if good then levels else Select(levels, Sufficient(best, records)), name, positive)
  {
    var kept := levels;
    if !good {
      kept := KeepSufficient(levels, best, records);
    }
    final := kept;
    if SeaVariable(name) && !positive {
      final := DropNegative(kept);
    }
  }

  /** The outcome assembled from the results of the passes. */
  lemma {:induction false} OutcomeOfParts(depth: DepthField, vars: seq<Matrix>, rows: seq<seq<real>>, name: Option<string>,
                                          verbose: bool, levels: seq<real>, good: bool, best: seq<nat>, computed: bool)
    requires AllShaped(vars, rows) && (depth.Varying? ==> Uniform(depth.rows))
    requires levels == Resolved(Flat(depth)) && good == GoodData(vars, rows, Flat(depth), levels)
    requires best == BestCounts(vars, rows, levels) && computed == MeanComputed(vars, Flat(depth), levels)
    ensures |best| == |levels|
    ensures Outcome(depth, vars, rows, name, verbose) ==
      if !computed && |levels| > 0 && (verbose || !good) then Err("the record count of the means is undefined")
      else Ok(DepthInformation(ConstantDepth(depth), GoodSpaced(Candidates(Flat(depth))), good, Positive(levels),
        Rounded(SignHandled(if good then levels else Select(levels, Sufficient(best, |rows|)), name, Positive(levels)))))
  {
  }

  /** The run on the depths of a file that has them: the switches computed by their loops,
      then the filters. */
  method RunLevels(depth: DepthField, vars: seq<Matrix>, rows: seq<seq<real>>, name: Option<string>, verbose: bool)
    returns (r: Result<DepthInformation>)
    requires AllShaped(vars, rows) && (depth.Varying? ==> Uniform(depth.rows)) && Covered(rows, Flat(depth))
    ensures r == Outcome(depth, vars, rows, name, verbose)
  {
    var flat := Flat(depth);
    var constant := DepthIsConstant(depth);
    var levels, spaced := ResolveLevels(flat);
    var good := FirstPass(vars, rows, flat, levels);
    var positive := DepthIsPositive(levels);
    var best, computed := SecondPass(vars, rows, flat, levels);
    OutcomeOfParts(depth, vars, rows, name, verbose, levels, good, best, computed);
    if !computed && |levels| > 0 && (verbose || !good) {
      return Err("the record count of the means is undefined");
    }
    var final := FilterLevels(levels, best, good, |rows|, name, positive);
    r := Ok(DepthInformation(constant, spaced, good, positive, Rounded(final)));
  }

  /** The run: a surface dataset has the single level 0. */
  method Run(obs: Observation, name: Option<string>, verbose: bool) returns (r: Result<DepthInformation>)
    requires WellFormed(obs)
    ensures r == Resolve(obs, name, verbose)
  {
    if obs.depth.Surface? {
      return Ok(DepthInformation(true, true, true, true, [0.0]));
    }
    RowsCovered(obs.depth, obs.records);
    r := RunLevels(obs.depth, CheckedData(obs), Rows(obs.depth, obs.records), name, verbose);
  }
}
