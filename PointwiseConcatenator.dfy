/** `pointwise_datasets_concatenator`: the choice and ordering of the files to concatenate, the
    overlaps between them, the merged type and fill value of each variable and the files left
    out of the concatenation (SOURCE/pointwise_datasets_concatenator.py). */
module PointwiseConcatenator {
  import opened Wrappers
  import opened Strings
  import opened Sorting

  // ---------------------------------------------------------------- intersect

  /** The first candidate of least length (`min(candidates, key=len)`). */
  function Shortest(candidates: seq<string>): (r: string)
    requires candidates != []
    ensures r in candidates && forall k :: 0 <= k < |candidates| ==> |r| <= |candidates[k]|
  {
    if |candidates| == 1 then candidates[0]
    else
      var best := Shortest(candidates[..|candidates| - 1]);
      if |candidates[|candidates| - 1]| < |best| then candidates[|candidates| - 1] else best
  }

  /** The characters of `current` kept by each string from `index` on. */
  function Candidates(current: string, strings: seq<string>, index: nat): (c: seq<string>)
    requires index <= |strings|
    ensures |c| == |strings| - index
    ensures forall k :: 0 <= k < |c| ==> c[k] == KeepIn(current, strings[index + k])
  {
    seq(|strings| - index, k requires 0 <= k < |strings| - index => KeepIn(current, strings[index + k]))
  }

  /** Every string equals the first. */
  predicate AllSame(strings: seq<string>) {
    forall k :: 0 <= k < |strings| ==> strings[k] == strings[0]
  }

  /** One step of `intersect` keeps a subsequence of the first string. */
  lemma {:induction false} IntersectStepSubsequence(intersection: string, strings: seq<string>, index: nat)
    requires index < |strings| && IsSubsequence(intersection, strings[0])
    ensures IsSubsequence(Shortest(Candidates(intersection, strings, index)), strings[0])
  {
    var candidates := Candidates(intersection, strings, index);
    var next := Shortest(candidates);
    var k :| 0 <= k < |candidates| && candidates[k] == next;
    KeepInSubsequence(intersection, strings[index + k]);
    SubsequenceTransitive(next, intersection, strings[0]);
  }

  /** One step of `intersect` changes nothing when all the strings are the same. */
  lemma {:induction false} IntersectStepSame(strings: seq<string>, index: nat)
    requires index < |strings| && AllSame(strings)
    ensures Shortest(Candidates(strings[0], strings, index)) == strings[0]
  {
    var candidates := Candidates(strings[0], strings, index);
    var k :| 0 <= k < |candidates| && candidates[k] == Shortest(candidates);
    assert strings[index + k] == strings[0];
    KeepInAll(strings[0], strings[0]);
  }

  /** `intersect`: starting from the first string, each step keeps the shortest of the
      intersections with the strings from the step's index on. An empty list has none. */
  method Intersect(strings: seq<string>) returns (r: Option<string>)
    ensures r.None? <==> strings == []
    ensures r.Some? ==> IsSubsequence(r.value, strings[0])
    ensures r.Some? ==> forall c :: c in r.value ==> c in strings[|strings| - 1]
    ensures r.Some? && AllSame(strings) ==> r.value == strings[0]
  {
    if strings == [] {
      return None;
    }
    var intersection := strings[0];
    SubsequenceReflexive(intersection);
    for index := 0 to |strings|
      invariant IsSubsequence(intersection, strings[0])
      invariant index == |strings| ==> forall c :: c in intersection ==> c in strings[|strings| - 1]
      invariant AllSame(strings) ==> intersection == strings[0]
    {
      var candidates := Candidates(intersection, strings, index);
      var next := Shortest(candidates);
      IntersectStepSubsequence(intersection, strings, index);
      if AllSame(strings) {
        IntersectStepSame(strings, index);
      }
      if index == |strings| - 1 {
        assert next == KeepIn(intersection, strings[|strings| - 1]);
      }
      intersection := next;
    }
    r := Some(intersection);
  }

  lemma {:induction false} SubsequenceReflexive(s: string)
    ensures IsSubsequence(s, s)
  {
    if s != [] {
      SubsequenceReflexive(s[..|s| - 1]);
    }
  }

  // ---------------------------------------------------------------- files to concatenate

  /** What the first pass reads from one file: whether it has a longitude and a latitude
      variable, the length of its record dimension (absent when there is none), whether it has a
      time variable, and its first and last times in seconds. */
  datatype FileSummary = FileSummary(path: string, hasLongitude: bool, hasLatitude: bool,
                                     records: Option<nat>, hasTime: bool, start: int, end: int)

  /** A file the first pass refuses: no longitude, no latitude, no record dimension, or more
      than one record and no time variable (a single-record file is passed over before its time
      variable is looked up). */
  predicate Broken(f: FileSummary) {
    !f.hasLongitude || !f.hasLatitude || f.records.None? || (f.records.value != 1 && !f.hasTime)
  }

  /** A readable file is kept when it has more than one record and overlaps the date window. */
  predicate Kept(f: FileSummary, first: Option<int>, last: Option<int>)
    requires !Broken(f)
  {
    f.records.value != 1 && !(first.Some? && f.end < first.value) && !(last.Some? && f.start > last.value)
  }

  /** The kept files, in input order, when no file is broken. */
  function KeptFiles(files: seq<FileSummary>, first: Option<int>, last: Option<int>): (r: seq<FileSummary>)
    requires forall k :: 0 <= k < |files| ==> !Broken(files[k])
    ensures |r| <= |files|
    ensures forall k :: 0 <= k < |r| ==> r[k] in files && !Broken(r[k]) && Kept(r[k], first, last)
  {
    if files == [] then []
    else
      var init := KeptFiles(files[..|files| - 1], first, last);
      var f := files[|files| - 1];
      if Kept(f, first, last) then init + [f] else init
  }

  function Starts(files: seq<FileSummary>): (s: seq<int>)
    ensures |s| == |files| && forall k :: 0 <= k < |files| ==> s[k] == files[k].start
  {
    seq(|files|, k requires 0 <= k < |files| => files[k].start)
  }

  /** The first pass over the files (`file_cut_list`), then their order by start time
      (`time_sorted_list`). A first date after the last date, a broken file or no file left
      is an error. */
  method SelectFiles(files: seq<FileSummary>, first: Option<int>, last: Option<int>)
    returns (r: Result<seq<FileSummary>>)
    ensures r.Ok? <==> (!(first.Some? && last.Some? && first.value > last.value) &&
      (forall k :: 0 <= k < |files| ==> !Broken(files[k])) && KeptFiles(files, first, last) != [])
    ensures r.Ok? ==> (var kept := KeptFiles(files, first, last);
      r.value == Permute(kept, ArgSort(Starts(kept))) && Sorted(Starts(r.value)))
  {
    if first.Some? && last.Some? && first.value > last.value {
      return Err("selected first date is greater than last date");
    }
    var cut := CutFiles(files, first, last);
    if cut.Err? {
      return Err(cut.reason);
    }
    if cut.value == [] {
      return Err("no datasets to concatenate for selected time period");
    }
    var order := ArgSort(Starts(cut.value));
    r := Ok(Permute(cut.value, order));
    assert Starts(r.value) == Permute(Starts(cut.value), order);
  }

  /** The loop building `file_cut_list`, stopping at the first broken file. */
  method CutFiles(files: seq<FileSummary>, first: Option<int>, last: Option<int>)
    returns (r: Result<seq<FileSummary>>)
    ensures r.Ok? <==> forall k :: 0 <= k < |files| ==> !Broken(files[k])
    ensures r.Ok? ==> r.value == KeptFiles(files, first, last)
  {
    var cut: seq<FileSummary> := [];
    for k := 0 to |files|
      invariant forall m :: 0 <= m < k ==> !Broken(files[m])
      invariant cut == KeptFiles(files[..k], first, last)
    {
      var f := files[k];
      assert files[..k + 1][..k] == files[..k];
      if !f.hasLongitude {
        return Err("missing longitude variable");
      }
      if !f.hasLatitude {
        return Err("missing latitude variable");
      }
      if f.records.None? {
        return Err("missing record dimension");
      }
      if f.records.value == 1 {
        continue;
      }
      if !f.hasTime {
        return Err("missing record variable");
      }
      if Kept(f, first, last) {
        cut := cut + [f];
      }
    }
    assert files[..|files|] == files;
    r := Ok(cut);
  }

  // ---------------------------------------------------------------- overlaps

  /** File `j` overlaps file `i` in time (an open overlap: touching ends do not count). */
  predicate Overlaps(starts: seq<int>, ends: seq<int>, i: nat, j: nat)
    requires i < |starts| && j < |starts| && |ends| == |starts|
  {
    starts[j] < ends[i] && ends[j] > starts[i]
  }

  /** Overlap is symmetric. */
  lemma {:induction false} OverlapSymmetric(starts: seq<int>, ends: seq<int>, i: nat, j: nat)
    requires i < |starts| && j < |starts| && |ends| == |starts|
    ensures Overlaps(starts, ends, i, j) <==> Overlaps(starts, ends, j, i)
  {
  }

  /** `time_interceptions`: for each file the other files overlapping it, in increasing order. */
  method TimeInterceptions(starts: seq<int>, ends: seq<int>) returns (graph: seq<seq<nat>>)
    requires |ends| == |starts|
    ensures |graph| == |starts|
    ensures forall i :: 0 <= i < |graph| ==> forall j :: j in graph[i] <==>
      (0 <= j < |starts| && j != i && Overlaps(starts, ends, i, j))
    ensures forall i :: 0 <= i < |graph| ==> StrictlyIncreasing(graph[i])
  {
    graph := [];
    for first := 0 to |starts|
      invariant |graph| == first
      invariant forall i :: 0 <= i < first ==> forall j :: j in graph[i] <==>
        (0 <= j < |starts| && j != i && Overlaps(starts, ends, i, j))
      invariant forall i :: 0 <= i < first ==> StrictlyIncreasing(graph[i])
    {
      var others := OverlappingFiles(starts, ends, first);
      graph := graph + [others];
    }
  }

  /** One row of `time_interceptions`. */
  method OverlappingFiles(starts: seq<int>, ends: seq<int>, first: nat) returns (others: seq<nat>)
    requires |ends| == |starts| && first < |starts|
    ensures forall j :: j in others <==> (0 <= j < |starts| && j != first && Overlaps(starts, ends, first, j))
    ensures StrictlyIncreasing(others)
  {
    others := [];
    for second := 0 to |starts|
      invariant forall j :: j in others <==> (0 <= j < second && j != first && Overlaps(starts, ends, first, j))
      invariant forall k :: 0 <= k < |others| ==> others[k] < second
      invariant StrictlyIncreasing(others)
    {
      if second == first {
        continue;
      }
      if starts[second] < ends[first] && ends[second] > starts[first] {
        others := others + [second];
      }
    }
  }

  // ---------------------------------------------------------------- fill value

  /** The largest magnitude in the list. */
  function MaxMagnitude(fills: seq<real>): (m: real)
    requires fills != []
    ensures forall k :: 0 <= k < |fills| ==> -m <= fills[k] <= m
    ensures m in fills || -m in fills
  {
    var last := fills[|fills| - 1];
    var magnitude := if last < 0.0 then -last else last;
    if |fills| == 1 then magnitude
    else
      var rest := MaxMagnitude(fills[..|fills| - 1]);
      if magnitude > rest then magnitude else rest
  }

  /** `out_variable_fill_value`: the fill value of largest magnitude, positive when both signs
      occur; none when no file gives one. */
  function ChooseFill(fills: seq<real>): (r: Option<real>)
    ensures r.None? <==> fills == []
    ensures r.Some? ==> r.value in fills
    ensures r.Some? ==> forall k :: 0 <= k < |fills| ==> -r.value <= fills[k] <= r.value || r.value <= fills[k] <= -r.value
    ensures r.Some? && -r.value in fills ==> r.value >= 0.0
  {
    if fills == [] then None
    else
      var m := MaxMagnitude(fills);
      if m in fills then Some(m) else Some(-m)
  }

  // ---------------------------------------------------------------- skipped files

  /** One output variable of one file: the length of its first dimension (absent for a scalar)
      and the mask of its values. */
  datatype VariableMask = VariableMask(firstDimension: Option<nat>, masked: seq<bool>)

  /** The first variable whose first dimension is the file's record dimension. */
  function FirstTimeVariable(vars: seq<VariableMask>, records: nat): (k: Option<nat>)
    ensures k.Some? ==> (k.value < |vars| && vars[k.value].firstDimension == Some(records) &&
      forall m :: 0 <= m < k.value ==> vars[m].firstDimension != Some(records))
    ensures k.None? ==> forall m :: 0 <= m < |vars| ==> vars[m].firstDimension != Some(records)
  {
    if vars == [] then None
    else if vars[0].firstDimension == Some(records) then Some(0)
    else
      var k := FirstTimeVariable(vars[1..], records);
      if k.None? then None else Some(k.value + 1)
  }

  /** A file is skipped when its first time-dimensioned variable is fully masked, or when it has
      none. */
  function Skipped(vars: seq<VariableMask>, records: nat): bool {
    var k := FirstTimeVariable(vars, records);
    k.None? || forall m :: 0 <= m < |vars[k.value].masked| ==> vars[k.value].masked[m]
  }

  /** `skip_indices`: the loop over the output variables stops at the first one dimensioned by
      time. */
  method SkipIndices(files: seq<seq<VariableMask>>, records: seq<nat>) returns (skip: seq<bool>)
    requires |records| == |files|
    ensures |skip| == |files| && forall i :: 0 <= i < |files| ==> skip[i] == Skipped(files[i], records[i])
  {
    skip := [];
    for i := 0 to |files|
      invariant |skip| == i && forall m :: 0 <= m < i ==> skip[m] == Skipped(files[m], records[m])
    {
      var s := SkipFile(files[i], records[i]);
      skip := skip + [s];
    }
  }

  method SkipFile(vars: seq<VariableMask>, records: nat) returns (skip: bool)
    ensures skip == Skipped(vars, records)
  {
    skip := true;
    var k := 0;
    while k < |vars|
      invariant k <= |vars| && skip
      invariant forall m :: 0 <= m < k ==> vars[m].firstDimension != Some(records)
    {
      if vars[k].firstDimension == Some(records) {
        skip := forall m :: 0 <= m < |vars[k].masked| ==> vars[k].masked[m];
        assert FirstTimeVariable(vars, records) == Some(k) by {
          FirstTimeVariableAt(vars, records, k);
        }
        return;
      }
      k := k + 1;
    }
  }

  lemma {:induction false} FirstTimeVariableAt(vars: seq<VariableMask>, records: nat, k: nat)
    requires k < |vars| && vars[k].firstDimension == Some(records)
    requires forall m :: 0 <= m < k ==> vars[m].firstDimension != Some(records)
    ensures FirstTimeVariable(vars, records) == Some(k)
  {
    var r := FirstTimeVariable(vars, records);
    assert r.Some?;
  }

  /** A file whose first time-dimensioned variable holds an unmasked value is concatenated. */
  lemma {:induction false} KeptWithData(vars: seq<VariableMask>, records: nat, k: nat, m: nat)
    requires k < |vars| && vars[k].firstDimension == Some(records)
    requires forall p :: 0 <= p < k ==> vars[p].firstDimension != Some(records)
    requires m < |vars[k].masked| && !vars[k].masked[m]
    ensures !Skipped(vars, records)
  {
    FirstTimeVariableAt(vars, records, k);
  }

  // ---------------------------------------------------------------- one file

  datatype Plan = Copy | Concatenate | Nothing

  /** With a single file left the source copies it only inside its `if verbose:` block. */
  function SingleFilePlanAsWritten(files: nat, verbose: bool): Plan
    requires files >= 1
  {
    if files == 1 then (if verbose then Copy else Nothing) else Concatenate
  }

  /** A single file left is copied quietly too when not verbose. */
  lemma {:induction false} QuietSingleFileNotCopied()
    ensures SingleFilePlanAsWritten(1, false) == Nothing
  {
  }

  /** The evident intent: a single file is copied whatever the verbosity; several files are
      concatenated. */
  function SingleFilePlan(files: nat, verbose: bool): (p: Plan)
    requires files >= 1
    ensures p == Copy <==> files == 1
    ensures p == Concatenate <==> files > 1
  {
    if files == 1 then Copy else Concatenate
  }
}
