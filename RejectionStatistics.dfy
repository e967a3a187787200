/** The global statistics computed from the rejection table: every `;` list of a column becomes
    one row of a zero-padded matrix, column sums are taken per position, and the rejections are
    expressed as percentages of the data that was not filled. */
module RejectionStatistics {
  import opened Wrappers
  import opened Strings
  import ObsPostpro
  import Numerics

  // ---------------------------------------------------------------- arguments

  /** The iteration count must be a non-negative integer; `None` stands for a value that is not
      an integer at all (the comparison raises `TypeError`). */
  function CheckIterations(iterations: Option<int>): (r: Result<nat>)
    ensures r.Ok? <==> iterations.Some? && iterations.value >= 0
    ensures r.Ok? ==> r.value == iterations.value
  {
    if iterations.Some? && iterations.value >= 0 then Ok(iterations.value as nat)
    else Err("TypeError")
  }

  // ---------------------------------------------------------------- reading the table

  /** The integers of a `;` list, or an error at the first piece that is not one. */
  function Numbers(pieces: seq<string>): (r: Result<seq<int>>)
    ensures r.Ok? <==> forall k :: 0 <= k < |pieces| ==> ParseInt(pieces[k]).Some?
    ensures r.Ok? ==> |r.value| == |pieces| && forall k :: 0 <= k < |pieces| ==> Some(r.value[k]) == ParseInt(pieces[k])
  {
    if pieces == [] then Ok([])
    else
      var init := Numbers(pieces[..|pieces| - 1]);
      var last := ParseInt(pieces[|pieces| - 1]);
      assert forall k :: 0 <= k < |pieces| - 1 ==> pieces[..|pieces| - 1][k] == pieces[k];
      if init.Err? then init
      else if last.None? then Err("ValueError")
      else Ok(init.value + [last.value])
  }

  /** One cell, split at `;` into numbers. */
  function CellNumbers(cell: string): Result<seq<int>> {
    Numbers(Split(cell, ';'))
  }

  /** Column `c` of the table, each cell turned into one row by `parse`; the first row that is
      too short or whose cell does not parse is the error. */
  function ParseColumn(csv: seq<seq<string>>, c: nat, parse: string -> Result<seq<int>>): (r: Result<seq<seq<int>>>)
    ensures r.Ok? ==> |r.value| == |csv|
    ensures r.Ok? <==> forall i :: 0 <= i < |csv| ==> c < |csv[i]| && parse(csv[i][c]).Ok?
    ensures r.Ok? ==> forall i :: 0 <= i < |csv| ==> parse(csv[i][c]) == Ok(r.value[i])
  {
    if csv == [] then Ok([])
    else
      var init := ParseColumn(csv[..|csv| - 1], c, parse);
      var row := csv[|csv| - 1];
      assert forall i :: 0 <= i < |csv| - 1 ==> csv[..|csv| - 1][i] == csv[i];
      if init.Err? then init
      else if c >= |row| then Err("IndexError")
      else
        var numbers := parse(row[c]);
        if numbers.Err? then Err(numbers.reason) else Ok(init.value + [numbers.value])
  }

  /** Column `c` of the table, each cell split at `;` into one row of numbers. */
  function ColumnRows(csv: seq<seq<string>>, c: nat): (r: Result<seq<seq<int>>>)
    ensures r.Ok? ==> |r.value| == |csv|
    ensures r.Ok? <==> forall i :: 0 <= i < |csv| ==> c < |csv[i]| && CellNumbers(csv[i][c]).Ok?
    ensures r.Ok? ==> forall i :: 0 <= i < |csv| ==> CellNumbers(csv[i][c]) == Ok(r.value[i])
  {
    ParseColumn(csv, c, CellNumbers)
  }

  /** The columns the statistics read: totals, filled data, the three gross tests and the
      statistic test of every iteration. */
  datatype Table = Table(totals: seq<seq<int>>, filled: seq<seq<int>>, range: seq<seq<int>>,
                         spike: seq<seq<int>>, stuck: seq<seq<int>>, statistic: seq<seq<seq<int>>>)

  /** The rows of the statistic columns `7` .. `6 + n`. */
  function StatisticRows(csv: seq<seq<string>>, n: nat): (r: Result<seq<seq<seq<int>>>>)
    ensures r.Ok? ==> |r.value| == n && forall k :: 0 <= k < n ==> ColumnRows(csv, 7 + k) == Ok(r.value[k])
  {
    if n == 0 then Ok([])
    else
      var init := StatisticRows(csv, n - 1);
      var last := ColumnRows(csv, 6 + n);
      if init.Err? then init
      else if last.Err? then Err(last.reason)
      else
        var rows := init.value + [last.value];
        assert forall k :: 0 <= k < n - 1 ==> rows[k] == init.value[k] && ColumnRows(csv, 7 + k) == Ok(rows[k]);
        assert ColumnRows(csv, 7 + (n - 1)) == Ok(rows[n - 1]);
        Ok(rows)
  }

  /** The script's fixed layout: columns 2 .. 6 are the totals, filled data and the three gross
      tests, and iteration `k` is read from column `6 + k`. An empty table has no longest row. */
  function ReadTable(csv: seq<seq<string>>, iterations: nat): (r: Result<Table>)
    ensures csv == [] ==> r.Err?
    ensures r.Ok? ==> (ColumnRows(csv, 2) == Ok(r.value.totals) && ColumnRows(csv, 3) == Ok(r.value.filled) &&
      ColumnRows(csv, 4) == Ok(r.value.range) && ColumnRows(csv, 5) == Ok(r.value.spike) &&
      ColumnRows(csv, 6) == Ok(r.value.stuck) && StatisticRows(csv, iterations) == Ok(r.value.statistic))
  {
    if csv == [] then Err("ValueError")
    else
      var totals := ColumnRows(csv, 2);
      var filled := ColumnRows(csv, 3);
      var range := ColumnRows(csv, 4);
      var spike := ColumnRows(csv, 5);
      var stuck := ColumnRows(csv, 6);
      var statistic := StatisticRows(csv, iterations);
      if totals.Err? then Err(totals.reason)
      else if filled.Err? then Err(filled.reason)
      else if range.Err? then Err(range.reason)
      else if spike.Err? then Err(spike.reason)
      else if stuck.Err? then Err(stuck.reason)
      else if statistic.Err? then Err(statistic.reason)
      else Ok(Table(totals.value, filled.value, range.value, spike.value, stuck.value, statistic.value))
  }

  /** The fixed layout agrees with the header of the rejection table when every gross test is
      enabled: columns 2 .. 6 hold the totals and the three tests, column `6 + k` the statistic
      test of iteration `k`. */
  lemma {:induction false} LayoutMatchesHeader(n: nat)
    ensures var header := ObsPostpro.TotalsColumns + ObsPostpro.TestColumns(true, true, true, n);
      |header| == 7 + n &&
      header[2..7] == ["data_total", "filled_data", "global_range_check_rejection", "spike_test_rejection", "stuck_value_rejection"] &&
      forall k :: 1 <= k <= n ==> header[6 + k] == ObsPostpro.StatisticName(k)
  {
    var tests := ObsPostpro.EnabledTests(true, true, true);
    assert tests == ["global_range_check_rejection", "spike_test_rejection", "stuck_value_rejection"];
    ObsPostpro.StatisticNamesDistinct(n);
    var header := ObsPostpro.TotalsColumns + ObsPostpro.TestColumns(true, true, true, n);
    assert header == ObsPostpro.TotalsColumns + tests + ObsPostpro.StatisticNames(n);
    forall k | 1 <= k <= n
      ensures header[6 + k] == ObsPostpro.StatisticName(k)
    {
      assert header[6 + k] == ObsPostpro.StatisticNames(n)[k - 1];
    }
  }

  /** With a gross test disabled the layout is off by one: column 4 then holds the spike test. */
  lemma {:induction false} LayoutShiftsWithoutRange(n: nat)
    ensures (ObsPostpro.TotalsColumns + ObsPostpro.TestColumns(false, true, true, n))[4] == "spike_test_rejection"
  {
    var header := ObsPostpro.TotalsColumns + ObsPostpro.TestColumns(false, true, true, n);
    assert ObsPostpro.EnabledTests(false, true, true) == ["spike_test_rejection", "stuck_value_rejection"];
    assert header == ObsPostpro.TotalsColumns + ObsPostpro.EnabledTests(false, true, true) + ObsPostpro.StatisticNames(n);
  }

  // ---------------------------------------------------------------- padding

  /** The length of the longest row. */
  function MaxLength(rows: seq<seq<int>>): (w: nat)
    ensures forall i :: 0 <= i < |rows| ==> |rows[i]| <= w
    ensures rows != [] ==> exists i :: 0 <= i < |rows| && |rows[i]| == w
    ensures rows == [] ==> w == 0
  {
    if rows == [] then 0
    else
      var init := MaxLength(rows[..|rows| - 1]);
      var last := |rows[|rows| - 1]|;
      assert forall i :: 0 <= i < |rows| - 1 ==> rows[i] == rows[..|rows| - 1][i];
      if last > init then last else init
  }

  /** Position `j` of a row, zero beyond its end. */
  function Entry(row: seq<int>, j: int): int {
    if 0 <= j < |row| then row[j] else 0
  }

  /** The zero matrix as wide as the longest row, each row copied into its prefix; an empty
      column has no longest row. */
  method Pad(rows: seq<seq<int>>) returns (r: Result<array2<int>>)
    ensures r.Err? <==> rows == []
    ensures r.Ok? ==> fresh(r.value) && r.value.Length0 == |rows| && r.value.Length1 == MaxLength(rows)
    ensures r.Ok? ==> forall i, j :: 0 <= i < |rows| && 0 <= j < MaxLength(rows) ==> r.value[i, j] == Entry(rows[i], j)
  {
    if rows == [] {
      return Err("ValueError");
    }
    var width := MaxLength(rows);
    var m := new int[|rows|, width]((i, j) => 0);
    for i := 0 to |rows|
      invariant forall a, b :: 0 <= a < |rows| && 0 <= b < width ==> m[a, b] == if a < i then Entry(rows[a], b) else 0
    {
      for j := 0 to |rows[i]|
        invariant forall a, b :: 0 <= a < |rows| && 0 <= b < width ==>
          m[a, b] == if a < i || (a == i && b < j) then Entry(rows[a], b) else 0
      {
        m[i, j] := rows[i][j];
      }
    }
    return Ok(m);
  }

  /** The sum of column `j` of the padded matrix. */
  function ColumnTotal(rows: seq<seq<int>>, j: int): int {
    if rows == [] then 0 else ColumnTotal(rows[..|rows| - 1], j) + Entry(rows[|rows| - 1], j)
  }

  /** Padding adds nothing: beyond every row the column sums to zero. */
  lemma {:induction false} ColumnTotalBeyondRows(rows: seq<seq<int>>, j: nat)
    requires j >= MaxLength(rows)
    ensures ColumnTotal(rows, j) == 0
  {
    if rows != [] {
      assert forall i :: 0 <= i < |rows| - 1 ==> rows[..|rows| - 1][i] == rows[i];
      ColumnTotalBeyondRows(rows[..|rows| - 1], j);
    }
  }

  /** Column sums are monotone: entry-wise `a + b <= c` carries over to the totals. */
  lemma {:induction false} ColumnTotalsOrdered(a: seq<seq<int>>, b: seq<seq<int>>, c: seq<seq<int>>, j: nat)
    requires |a| == |b| == |c|
    requires forall i :: 0 <= i < |a| ==> 0 <= Entry(a[i], j) && Entry(a[i], j) + Entry(b[i], j) <= Entry(c[i], j)
    ensures 0 <= ColumnTotal(a, j) && ColumnTotal(a, j) + ColumnTotal(b, j) <= ColumnTotal(c, j)
  {
    if a != [] {
      var n := |a| - 1;
      assert forall i :: 0 <= i < n ==> a[..n][i] == a[i] && b[..n][i] == b[i] && c[..n][i] == c[i];
      ColumnTotalsOrdered(a[..n], b[..n], c[..n], j);
    }
  }

  // ---------------------------------------------------------------- percentages

  /** `np.around(part / whole * 100, decimals=2)`; a zero denominator gives no number. */
  function Percentage(part: int, whole: int): (r: Option<real>)
    ensures r.Some? <==> whole != 0
  {
    if whole == 0 then None else Some(Numerics.RoundDecimals(part as real * 100.0 / whole as real, 100))
  }

  /** A percentage is rounded to two decimals: within 0.005 of the exact share, and 100
      times it is the whole number nearest to 100 times the exact share. */
  lemma {:induction false} PercentageRounded(part: int, whole: int)
    requires whole != 0
    ensures var exact := part as real * 100.0 / whole as real;
      exact - 0.005 <= Percentage(part, whole).value <= exact + 0.005 &&
      Percentage(part, whole).value * 100.0 == Numerics.RoundHalfEven(exact * 100.0) as real
  {
    Numerics.RoundDecimalsScaled(part as real * 100.0 / whole as real, 100);
  }

  /** The data that was not filled, the denominator of every rejection percentage. */
  function Checked(t: Table, j: int): int {
    ColumnTotal(t.totals, j) - ColumnTotal(t.filled, j)
  }

  /** A test that rejects no more than the checked data of each row yields a percentage between
      0 and 100. */
  lemma {:induction false} RejectionShareBounded(t: Table, test: seq<seq<int>>, j: nat)
    requires |test| == |t.filled| == |t.totals|
    requires forall i :: 0 <= i < |test| ==>
      0 <= Entry(test[i], j) && Entry(test[i], j) + Entry(t.filled[i], j) <= Entry(t.totals[i], j)
    requires Checked(t, j) != 0
    ensures 0.0 <= Percentage(ColumnTotal(test, j), Checked(t, j)).value <= 100.0
  {
    ColumnTotalsOrdered(test, t.filled, t.totals, j);
    var part := ColumnTotal(test, j) as real;
    var whole := Checked(t, j) as real;
    assert 0.0 <= part <= whole && whole > 0.0;
    assert 0.0 <= part * 100.0 / whole <= 100.0 by {
      assert part * 100.0 <= whole * 100.0;
    }
    Numerics.RoundDecimalsBetween(part * 100.0 / whole, 100, 0, 100);
  }

  /** The percentages of the name columns (the positions of the `;` lists), per test. */
  datatype Shares = Shares(filled: seq<Option<real>>, range: seq<Option<real>>, spike: seq<Option<real>>,
                           stuck: seq<Option<real>>, statistic: seq<seq<Option<real>>>)

  /** The lists before the first name: one empty list per iteration. */
  function NoShares(t: Table): Shares {
    Shares([], [], [], [], seq(|t.statistic|, k => []))
  }

  /** The lists after position `j` was added. */
  function AddPosition(s: Shares, t: Table, j: int): (r: Shares)
    requires |s.statistic| == |t.statistic|
    ensures |r.statistic| == |t.statistic|
  {
    Shares(s.filled + [Percentage(ColumnTotal(t.filled, j), ColumnTotal(t.totals, j))],
           s.range + [Percentage(ColumnTotal(t.range, j), Checked(t, j))],
           s.spike + [Percentage(ColumnTotal(t.spike, j), Checked(t, j))],
           s.stuck + [Percentage(ColumnTotal(t.stuck, j), Checked(t, j))],
           seq(|s.statistic|, k requires 0 <= k < |s.statistic| =>
             s.statistic[k] + [Percentage(ColumnTotal(t.statistic[k], j), Checked(t, j))]))
  }

  /** The lists after positions `0 .. n - 1`. */
  function SharesOf(t: Table, n: nat): (r: Shares)
    ensures |r.statistic| == |t.statistic|
  {
    if n == 0 then NoShares(t) else AddPosition(SharesOf(t, n - 1), t, n - 1)
  }

  /** The four lists of the shares that are not per iteration. */
  datatype Column = FilledColumn | RangeColumn | SpikeColumn | StuckColumn

  function ListOf(s: Shares, c: Column): seq<Option<real>> {
    match c
    case FilledColumn => s.filled
    case RangeColumn => s.range
    case SpikeColumn => s.spike
    case StuckColumn => s.stuck
  }

  /** The percentage a list holds at position `j`: filled data over the totals, a test's
      rejections over the checked data. */
  function ShareAt(t: Table, c: Column, j: int): Option<real> {
    match c
    case FilledColumn => Percentage(ColumnTotal(t.filled, j), ColumnTotal(t.totals, j))
    case RangeColumn => Percentage(ColumnTotal(t.range, j), Checked(t, j))
    case SpikeColumn => Percentage(ColumnTotal(t.spike, j), Checked(t, j))
    case StuckColumn => Percentage(ColumnTotal(t.stuck, j), Checked(t, j))
  }

  /** Position `j` of every list is the percentage of column `j`: filled data over the totals,
      every test over the checked data. */
  lemma {:induction false} SharesOfPositions(t: Table, n: nat)
    ensures var s := SharesOf(t, n);
      |s.filled| == |s.range| == |s.spike| == |s.stuck| == n &&
      forall j :: 0 <= j < n ==>
        s.filled[j] == Percentage(ColumnTotal(t.filled, j), ColumnTotal(t.totals, j)) &&
        s.range[j] == Percentage(ColumnTotal(t.range, j), Checked(t, j)) &&
        s.spike[j] == Percentage(ColumnTotal(t.spike, j), Checked(t, j)) &&
        s.stuck[j] == Percentage(ColumnTotal(t.stuck, j), Checked(t, j))
  {
    ColumnSharesOfPositions(t, n, FilledColumn);
    ColumnSharesOfPositions(t, n, RangeColumn);
    ColumnSharesOfPositions(t, n, SpikeColumn);
    ColumnSharesOfPositions(t, n, StuckColumn);
  }

  /** Position `j` of one list is that list's percentage of column `j`. */
  lemma {:induction false} ColumnSharesOfPositions(t: Table, n: nat, c: Column)
    ensures var list := ListOf(SharesOf(t, n), c);
      |list| == n && forall j :: 0 <= j < n ==> list[j] == ShareAt(t, c, j)
  {
    if n > 0 {
      ColumnSharesOfPositions(t, n - 1, c);
      var prev, list := ListOf(SharesOf(t, n - 1), c), ListOf(SharesOf(t, n), c);
      ColumnStep(t, n, c);
      forall j | 0 <= j < n
        ensures list[j] == ShareAt(t, c, j)
      {
        if j < n - 1 {
          assert list[j] == prev[j];
        }
      }
    }
  }

  /** Adding position `n - 1` appends its percentage to each list. */
  lemma {:induction false} ColumnStep(t: Table, n: nat, c: Column)
    requires n > 0
    ensures ListOf(SharesOf(t, n), c) == ListOf(SharesOf(t, n - 1), c) + [ShareAt(t, c, n - 1)]
  {
  }

  /** Position `j` of iteration `k`'s list is that iteration's percentage of column `j`. */
  lemma {:induction false} StatisticSharesOfPositions(t: Table, n: nat, k: nat)
    requires k < |t.statistic|
    ensures var s := SharesOf(t, n);
      |s.statistic[k]| == n &&
      forall j :: 0 <= j < n ==> s.statistic[k][j] == Percentage(ColumnTotal(t.statistic[k], j), Checked(t, j))
  {
    if n > 0 {
      StatisticSharesOfPositions(t, n - 1, k);
      StatisticStep(t, n, k);
      var prev := SharesOf(t, n - 1).statistic[k];
      var list := SharesOf(t, n).statistic[k];
      forall j | 0 <= j < n
        ensures list[j] == Percentage(ColumnTotal(t.statistic[k], j), Checked(t, j))
      {
        if j < n - 1 {
          assert list[j] == prev[j];
        }
      }
    }
  }

  /** Adding position `n - 1` appends one percentage to iteration `k`'s list. */
  lemma {:induction false} StatisticStep(t: Table, n: nat, k: nat)
    requires n > 0 && k < |t.statistic|
    ensures SharesOf(t, n).statistic[k] ==
      SharesOf(t, n - 1).statistic[k] + [Percentage(ColumnTotal(t.statistic[k], n - 1), Checked(t, n - 1))]
  {
  }

  /** Every padded matrix is at least `n` wide. */
  predicate WideEnough(t: Table, n: nat) {
    n <= MaxLength(t.totals) && n <= MaxLength(t.filled) && n <= MaxLength(t.range) &&
    n <= MaxLength(t.spike) && n <= MaxLength(t.stuck) &&
    forall k :: 0 <= k < |t.statistic| ==> n <= MaxLength(t.statistic[k])
  }

  /** Adds position `index`'s statistic percentage to every iteration's list. */
  method AppendStatisticShares(t: Table, index: nat, lists: seq<seq<Option<real>>>) returns (out: seq<seq<Option<real>>>)
    requires |lists| == |t.statistic|
    ensures |out| == |lists|
    ensures forall k :: 0 <= k < |lists| ==> out[k] == lists[k] + [Percentage(ColumnTotal(t.statistic[k], index), Checked(t, index))]
  {
    out := lists;
    for k := 0 to |lists|
      invariant |out| == |lists|
      invariant forall m :: 0 <= m < |lists| ==>
        out[m] == if m < k then lists[m] + [Percentage(ColumnTotal(t.statistic[m], index), Checked(t, index))] else lists[m]
    {
      out := out[k := out[k] + [Percentage(ColumnTotal(t.statistic[k], index), Checked(t, index))]];
    }
  }

  /** The percentages of position `index` appended to every list. */
  method AppendPosition(t: Table, index: nat, s: Shares) returns (next: Shares)
    requires |s.statistic| == |t.statistic|
    ensures next == AddPosition(s, t, index)
  {
    var statistic := AppendStatisticShares(t, index, s.statistic);
    next := Shares(s.filled + [Percentage(ColumnTotal(t.filled, index), ColumnTotal(t.totals, index))],
                   s.range + [Percentage(ColumnTotal(t.range, index), Checked(t, index))],
                   s.spike + [Percentage(ColumnTotal(t.spike, index), Checked(t, index))],
                   s.stuck + [Percentage(ColumnTotal(t.stuck, index), Checked(t, index))],
                   statistic);
  }

  /** The loop over the names: one position of every padded matrix per name, its percentages
      appended to the output lists. A position beyond a matrix raises `IndexError`, and with no
      names the statistic lists are never created (`KeyError`). */
  method Analyse(t: Table, names: nat) returns (r: Result<Shares>)
    ensures r.Ok? <==> WideEnough(t, names) && (names == 0 ==> |t.statistic| == 0)
    ensures r.Ok? ==> r.value == SharesOf(t, names)
  {
    var filled, range, spike, stuck := [], [], [], [];
    var statistic: seq<seq<Option<real>>> := seq(|t.statistic|, k => []);
    for index := 0 to names
      invariant WideEnough(t, index)
      invariant Shares(filled, range, spike, stuck, statistic) == SharesOf(t, index)
    {
      if !WideEnough(t, index + 1) {
        return Err("IndexError");
      }
      var next := AppendPosition(t, index, Shares(filled, range, spike, stuck, statistic));
      filled, range, spike, stuck, statistic := next.filled, next.range, next.spike, next.stuck, next.statistic;
    }
    if names == 0 && |t.statistic| > 0 {
      return Err("KeyError");
    }
    r := Ok(Shares(filled, range, spike, stuck, statistic));
  }

  // ---------------------------------------------------------------- output

  /** The header of the statistics file, built column by column. */
  method OutputHeader(iterations: nat) returns (header: seq<string>)
    ensures |header| == 5 + iterations
    ensures header[..5] == ["standard_names", "filled_data", "range_check_rejection_percentage",
                            "spike_test_rejection_percentage", "stuck_value_rejection_percentage"]
    ensures forall k :: 1 <= k <= iterations ==> header[4 + k] == ObsPostpro.StatisticName(k) + "_percentage"
  {
    header := ["standard_names", "filled_data"];
    header := header + ["range_check_rejection_percentage"];
    header := header + ["spike_test_rejection_percentage"];
    header := header + ["stuck_value_rejection_percentage"];
    for iteration := 1 to iterations + 1
      invariant |header| == 4 + iteration
      invariant header[..5] == ["standard_names", "filled_data", "range_check_rejection_percentage",
                                "spike_test_rejection_percentage", "stuck_value_rejection_percentage"]
      invariant forall k :: 1 <= k < iteration ==> header[4 + k] == ObsPostpro.StatisticName(k) + "_percentage"
    {
      header := header + [ObsPostpro.StatisticName(iteration) + "_percentage"];
    }
  }
}
