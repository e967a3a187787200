/** The driver of the observation post-processing: the update-mode switch, the averaging
    cadences a platform's sampling time allows, the rejection table's header and lines, and the
    concatenation of the per-variable rejection statistics. */
module ObsPostpro {
  import opened Wrappers
  import opened Strings

  // ---------------------------------------------------------------- update mode

  /** The climatology directory switches the run to update mode; `''` and `'None'` mean no
      directory, and a directory that does not exist stops the run. */
  function UpdateMode(climatologyDir: Option<string>, exists_: bool): (r: Result<bool>)
    ensures r.Err? <==> climatologyDir.Some? && climatologyDir.value != "" && climatologyDir.value != "None" && !exists_
    ensures r == Ok(true) <==>
      climatologyDir.Some? && climatologyDir.value != "" && climatologyDir.value != "None" && exists_
  {
    if climatologyDir.None? || climatologyDir.value == "" || climatologyDir.value == "None" then Ok(false)
    else if exists_ then Ok(true)
    else Err("Climatology directory not found.")
  }

  // ---------------------------------------------------------------- averaging cadences

  datatype Cadence = HM | DM | DMShift | MM | YM

  /** The record folders, in the order the script visits them. */
  const RecordFolders: seq<Cadence> := [HM, DM, DMShift, MM, YM]

  /** The tolerance on the output step, in percent. */
  const TimeStepTolerance: real := 10.0

  /** The longest sampling time a cadence accepts: its step plus the tolerance. */
  function MaximumStep(c: Cadence): (m: real)
    ensures m > 0.0
  {
    var factor := 1.0 + TimeStepTolerance / 100.0;
    match c
    case HM => factor * 3600.0
    case DM => factor * 3600.0 * 24.0
    case DMShift => factor * 3600.0 * 24.0
    case MM => factor * 3600.0 * 24.0 * 31.0
    case YM => factor * 3600.0 * 24.0 * 365.0
  }

  /** The step string handed to the time averager. */
  function StepString(c: Cadence): string {
    match c
    case HM => "01:00:00"
    case DM => "24:00:00"
    case DMShift => "24:00:00"
    case MM => "01"
    case YM => "12"
  }

  /** Only the shifted daily cadence moves the averages by half a step. */
  predicate HalfShift(c: Cadence) {
    c == DMShift
  }

  /** The cadences of `folders` whose maximum step the sampling time does not exceed. */
  function Allowed(folders: seq<Cadence>, sampling: real): (r: seq<Cadence>)
    ensures |r| <= |folders|
  {
    if folders == [] then []
    else
      var init := Allowed(folders[..|folders| - 1], sampling);
      var c := folders[|folders| - 1];
      if sampling > MaximumStep(c) then init else init + [c]
  }

  lemma {:induction false} AllowedMembers(folders: seq<Cadence>, sampling: real)
    ensures forall c :: c in Allowed(folders, sampling) <==> c in folders && sampling <= MaximumStep(c)
  {
    if folders != [] {
      AllowedMembers(folders[..|folders| - 1], sampling);
      assert folders == folders[..|folders| - 1] + [folders[|folders| - 1]];
    }
  }

  /** The four `under_one_*` flags, then the loop over the record folders that skips the
      cadences the flags rule out. */
  method Cadences(sampling: real) returns (cadences: seq<Cadence>)
    ensures cadences == Allowed(RecordFolders, sampling)
  {
    var factor := 1.0 + TimeStepTolerance / 100.0;
    var underOneHour, underOneDay, underOneMonth, underOneYear := true, true, true, true;
    if sampling > factor * 3600.0 {
      underOneHour := false;
    }
    if sampling > factor * 3600.0 * 24.0 {
      underOneDay := false;
    }
    if sampling > factor * 3600.0 * 24.0 * 31.0 {
      underOneMonth := false;
    }
    if sampling > factor * 3600.0 * 24.0 * 365.0 {
      underOneYear := false;
    }
    cadences := [];
    for i := 0 to |RecordFolders|
      invariant cadences == Allowed(RecordFolders[..i], sampling)
    {
      assert RecordFolders[..i + 1][..i] == RecordFolders[..i];
      var c := RecordFolders[i];
      if c == HM && !underOneHour {
        continue;
      }
      if (c == DM || c == DMShift) && !underOneDay {
        continue;
      }
      if c == MM && !underOneMonth {
        continue;
      }
      if c == YM && !underOneYear {
        continue;
      }
      cadences := cadences + [c];
    }
    assert RecordFolders[..|RecordFolders|] == RecordFolders;
  }

  /** A shorter sampling time allows every cadence a longer one allows. */
  lemma {:induction false} AllowedMonotone(folders: seq<Cadence>, shorter: real, longer: real)
    requires shorter <= longer
    ensures forall c :: c in Allowed(folders, longer) ==> c in Allowed(folders, shorter)
  {
    AllowedMembers(folders, shorter);
    AllowedMembers(folders, longer);
  }

  /** An hourly sampling allows every cadence; a daily one all but the hourly. */
  lemma {:induction false} HourlyAndDaily()
    ensures Allowed(RecordFolders, 3600.0) == RecordFolders
    ensures Allowed(RecordFolders, 86400.0) == [DM, DMShift, MM, YM]
  {
    var f := RecordFolders;
    assert f[..4] == [HM, DM, DMShift, MM];
    assert f[..4][..3] == [HM, DM, DMShift];
    assert f[..4][..3][..2] == [HM, DM];
    assert f[..4][..3][..2][..1] == [HM];
    assert f[..4][..3][..2][..1][..0] == [];
    assert Allowed([HM], 3600.0) == [HM];
    assert Allowed([HM, DM], 3600.0) == [HM, DM];
    assert Allowed([HM, DM, DMShift], 3600.0) == [HM, DM, DMShift];
    assert Allowed([HM, DM, DMShift, MM], 3600.0) == [HM, DM, DMShift, MM];
    assert Allowed([HM], 86400.0) == [];
    assert Allowed([HM, DM], 86400.0) == [DM];
    assert Allowed([HM, DM, DMShift], 86400.0) == [DM, DMShift];
    assert Allowed([HM, DM, DMShift, MM], 86400.0) == [DM, DMShift, MM];
  }

  // ---------------------------------------------------------------- rejection table

  /** The name of the statistic test's column for one iteration. */
  function StatisticName(iteration: nat): string {
    "statistic_rejection_" + NatToString(iteration)
  }

  /** Different iterations name different columns. */
  lemma {:induction false} StatisticNameInjective(i: nat, j: nat)
    requires StatisticName(i) == StatisticName(j)
    ensures i == j
  {
    var p := "statistic_rejection_";
    assert NatToString(i) == StatisticName(i)[|p|..];
    assert NatToString(j) == StatisticName(j)[|p|..];
    NatToStringValue(i);
    NatToStringValue(j);
  }

  /** `statistic_rejection_1` .. `statistic_rejection_n`. */
  function StatisticNames(n: nat): (r: seq<string>)
    ensures |r| == n
  {
    if n == 0 then [] else StatisticNames(n - 1) + [StatisticName(n)]
  }

  /** The tests whose columns the table has, in order. */
  function EnabledTests(range: bool, spike: bool, stuck: bool): (r: seq<string>)
    ensures |r| <= 3
  {
    (if range then ["global_range_check_rejection"] else []) +
    (if spike then ["spike_test_rejection"] else []) +
    (if stuck then ["stuck_value_rejection"] else [])
  }

  /** The four columns every rejection table starts with. */
  const TotalsColumns: seq<string> := ["platform_code", "standard_names", "data_total", "filled_data"]

  /** The header of `rejection_process.csv`, built column by column; there is no table for a
      negative number of iterations. */
  method RejectionHeader(iterations: int, range: bool, spike: bool, stuck: bool) returns (header: Option<seq<string>>)
    ensures iterations < 0 <==> header.None?
    ensures header.Some? ==> header.value == TotalsColumns + TestColumns(range, spike, stuck, iterations)
  {
    if iterations < 0 {
      return None;
    }
    var h := TotalsColumns;
    if range {
      h := h + ["global_range_check_rejection"];
    }
    if spike {
      h := h + ["spike_test_rejection"];
    }
    if stuck {
      h := h + ["stuck_value_rejection"];
    }
    var tests := h[4..];
    assert tests == EnabledTests(range, spike, stuck);
    assert h == TotalsColumns + tests;
    h := AppendStatisticColumns(h, iterations);
    Regroup(TotalsColumns, tests, StatisticNames(iterations));
    header := Some(h);
  }

  /** The loop adding one statistic column per iteration. */
  method AppendStatisticColumns(h0: seq<string>, iterations: nat) returns (h: seq<string>)
    ensures h == h0 + StatisticNames(iterations)
  {
    h := h0;
    for iteration := 1 to iterations + 1
      invariant h == h0 + StatisticNames(iteration - 1)
    {
      h := h + [StatisticName(iteration)];
    }
  }

  lemma Regroup(a: seq<string>, b: seq<string>, c: seq<string>)
    ensures a + b + c == a + (b + c)
  {
  }

  /** The statistic columns are named apart: the header never repeats a name. */
  lemma {:induction false} StatisticNamesDistinct(n: nat)
    ensures forall i :: 0 <= i < n ==> StatisticNames(n)[i] == StatisticName(i + 1)
    ensures forall i, j :: 0 <= i < j < n ==> StatisticNames(n)[i] != StatisticNames(n)[j]
  {
    if n > 0 {
      StatisticNamesDistinct(n - 1);
      assert forall i :: 0 <= i < n - 1 ==> StatisticNames(n)[i] == StatisticNames(n - 1)[i];
      forall i, j | 0 <= i < j < n
        ensures StatisticNames(n)[i] != StatisticNames(n)[j]
      {
        if StatisticNames(n)[i] == StatisticNames(n)[j] {
          StatisticNameInjective(i + 1, j + 1);
        }
      }
    }
  }

  // ---------------------------------------------------------------- statistics

  /** The statistics of the variables of one platform, column by column: `data_total`,
      `filled_data` and the tests' rejections, each a `;`-joined list. */
  type Stats = map<string, string>

  /** The statistics of a new variable are appended to every column it has; an empty table is
      replaced by them. A column the table lacks stops the run (`KeyError`). */
  function Concatenated(acc: Stats, v: Stats): (r: Result<Stats>)
    ensures r.Err? <==> |acc| > 0 && !(v.Keys <= acc.Keys)
    ensures r.Ok? && |acc| > 0 ==> r.value.Keys == acc.Keys
  {
    if |acc| == 0 then Ok(v)
    else if v.Keys <= acc.Keys then Ok(map k | k in acc :: if k in v then acc[k] + ";" + v[k] else acc[k])
    else Err("KeyError")
  }

  /** The in-place update, one column of the new variable at a time. */
  method Concatenate(acc: Stats, v: Stats) returns (r: Result<Stats>)
    ensures r == Concatenated(acc, v)
  {
    if |acc| == 0 {
      return Ok(v);
    }
    var out := acc;
    var todo := v.Keys;
    while todo != {}
      invariant todo <= v.Keys
      invariant out.Keys == acc.Keys
      invariant forall k :: k in acc ==> out[k] == if k in v && k !in todo then acc[k] + ";" + v[k] else acc[k]
      invariant forall k :: k in v.Keys - todo ==> k in acc
      decreases todo
    {
      var k :| k in todo;
      if k !in out {
        return Err("KeyError");
      }
      out := out[k := out[k] + ";" + v[k]];
      todo := todo - {k};
    }
    assert v.Keys <= acc.Keys;
    r := Ok(out);
    assert out == map k | k in acc :: if k in v then acc[k] + ";" + v[k] else acc[k];
  }

  /** Each concatenation adds the variable's entry at the end of the column's `;` list. */
  lemma {:induction false} ConcatenatedAppends(acc: Stats, v: Stats, k: string)
    requires |acc| > 0 && v.Keys <= acc.Keys && k in v && ';' !in v[k]
    ensures Split(Concatenated(acc, v).value[k], ';') == Split(acc[k], ';') + [v[k]]
  {
    SplitAppend(acc[k], ';', v[k]);
    assert acc[k] + ";" + v[k] == acc[k] + [';'] + v[k];
  }

  /** `n` zeros joined with `;`. */
  function Zeros(n: nat): (s: string)
    requires n >= 1
  {
    Join(seq(n, i => "0"), ';')
  }

  lemma {:induction false} ZerosSplit(n: nat)
    requires n >= 1
    ensures Split(Zeros(n), ';') == seq(n, i => "0")
  {
    SplitJoin(seq(n, i => "0"), ';');
  }

  /** The range-check column: its statistics, or as many zeros as `data_total` has entries when
      the column is missing. */
  function RangeColumn(stats: Stats): (r: Result<string>)
    ensures r.Err? <==> "range_check_rejection" !in stats && "data_total" !in stats
    ensures "range_check_rejection" in stats ==> r == Ok(stats["range_check_rejection"])
  {
    if "range_check_rejection" in stats then Ok(stats["range_check_rejection"])
    else if "data_total" in stats then Ok(Zeros(|Split(stats["data_total"], ';')|))
    else Err("KeyError")
  }

  /** A missing range column is as long as the `data_total` column. */
  lemma {:induction false} RangeColumnAligned(stats: Stats)
    requires "range_check_rejection" !in stats && "data_total" in stats
    ensures |Split(RangeColumn(stats).value, ';')| == |Split(stats["data_total"], ';')|
  {
    ZerosSplit(|Split(stats["data_total"], ';')|);
  }

  /** The column of the statistics a test or statistic column of the header reads: the
      range check's is stored without the `global_` prefix. */
  function StatsKey(column: string): string {
    if column == "global_range_check_rejection" then "range_check_rejection" else column
  }

  /** The cell under a test or statistic column; only the range column has a fallback. */
  function Cell(stats: Stats, column: string): (r: Result<string>)
    ensures column != "global_range_check_rejection" ==> (r.Ok? <==> column in stats)
    ensures column != "global_range_check_rejection" && r.Ok? ==> r.value == stats[column]
  {
    if column == "global_range_check_rejection" then RangeColumn(stats)
    else if column in stats then Ok(stats[column])
    else Err("KeyError")
  }

  /** The cells under `columns`, in order, or the first error. */
  function Cells(stats: Stats, columns: seq<string>): (r: Result<seq<string>>)
    ensures r.Ok? <==> forall k :: 0 <= k < |columns| ==> Cell(stats, columns[k]).Ok?
    ensures r.Ok? ==> |r.value| == |columns| && forall k :: 0 <= k < |columns| ==> r.value[k] == Cell(stats, columns[k]).value
  {
    if columns == [] then Ok([])
    else
      var init := Cells(stats, columns[..|columns| - 1]);
      var last := Cell(stats, columns[|columns| - 1]);
      if init.Err? then init
      else if last.Err? then Err(last.reason)
      else Ok(init.value + [last.value])
  }

  /** The test and statistic columns of the header, after the four fixed ones. */
  function TestColumns(range: bool, spike: bool, stuck: bool, iterations: nat): seq<string> {
    EnabledTests(range, spike, stuck) + StatisticNames(iterations)
  }

  /** One line of the rejection table: the platform, its variables, its totals, then the cell
      under every test and statistic column of the header. A line is refused exactly when a
      column it reads is missing. */
  function RejectionLine(code: string, names: seq<string>, stats: Stats, columns: seq<string>): (r: Result<seq<string>>)
    ensures r.Ok? <==>
      "data_total" in stats && "filled_data" in stats && forall k :: 0 <= k < |columns| ==> Cell(stats, columns[k]).Ok?
    ensures r.Ok? ==> (|r.value| == 4 + |columns| &&
      r.value[..4] == [code, Join(names, ';'), stats["data_total"], stats["filled_data"]] &&
      forall k :: 0 <= k < |columns| ==> r.value[4..][k] == Cell(stats, columns[k]).value)
  {
    if "data_total" !in stats || "filled_data" !in stats then Err("KeyError")
    else
      var cells := Cells(stats, columns);
      if cells.Err? then Err(cells.reason)
      else Ok([code, Join(names, ';'), stats["data_total"], stats["filled_data"]] + cells.value)
  }

  // ---------------------------------------------------------------- duplicated platforms

  /** The platform codes the probes table holds after visiting `codes` in order: a code is
      skipped when the table's code column already has it (the header's `'platform_code'`
      included), and it is added when the platform produced a probe. */
  function Written(codes: seq<string>, produced: seq<bool>): (r: seq<string>)
    requires |produced| == |codes|
  {
    if codes == [] then []
    else
      var n := |codes| - 1;
      var init := Written(codes[..n], produced[..n]);
      if codes[n] == "platform_code" || codes[n] in init || !produced[n] then init else init + [codes[n]]
  }

  /** The probes table never holds a code twice, nor the header's name, and holds only input
      codes. */
  lemma {:induction false} WrittenDistinct(codes: seq<string>, produced: seq<bool>)
    requires |produced| == |codes|
    ensures var w := Written(codes, produced);
      (forall i, j :: 0 <= i < j < |w| ==> w[i] != w[j]) && "platform_code" !in w &&
      forall c :: c in w ==> c in codes
  {
    if codes != [] {
      var n := |codes| - 1;
      WrittenDistinct(codes[..n], produced[..n]);
      var init := Written(codes[..n], produced[..n]);
      assert forall c :: c in codes[..n] ==> c in codes;
      if !(codes[n] == "platform_code" || codes[n] in init || !produced[n]) {
        var w := init + [codes[n]];
        forall i, j | 0 <= i < j < |w|
          ensures w[i] != w[j]
        {
          if j == |init| {
            assert w[i] in init;
          }
        }
      }
    }
  }

  /** The loop over the input probes table, with `produced` standing for whether a visited
      platform yields a probe line. */
  method VisitPlatforms(codes: seq<string>, produced: seq<bool>) returns (written: seq<string>)
    requires |produced| == |codes|
    ensures written == Written(codes, produced)
  {
    written := [];
    for i := 0 to |codes|
      invariant written == Written(codes[..i], produced[..i])
    {
      assert codes[..i + 1][..i] == codes[..i];
      assert produced[..i + 1][..i] == produced[..i];
      if codes[i] == "platform_code" || codes[i] in written {
        continue;
      }
      if produced[i] {
        written := written + [codes[i]];
      }
    }
    assert codes[..|codes|] == codes;
    assert produced[..|produced|] == produced;
  }
}
