/** `metadata_merger`: merging a base and an update catalogue (devices, organizations,
    variables and probes CSV tables) into one, the base optionally dominant
    (SOURCE/obs_postpro/metadata_merger.py). Ids are integers and times are seconds. The probes
    are taken with their device, organization and variable ids already replaced by names, as the
    script does right after reading; the last pass turns the names back into ids of the merged
    tables. */
module MetadataMerger {
  import opened Wrappers
  import opened Strings
  import opened Sorting

  // ---------------------------------------------------------------- preference rules

  /** Name, WMO code, link, country, long name and units: the update value unless it is empty. */
  function Prefer(update: string, base: string): (r: string)
    ensures update != "" ==> r == update
    ensures update == "" ==> r == base
  {
    if update == "" then base else update
  }

  /** Probe type and organization: the base value when the base is dominant or the update value
      is empty. */
  function PreferBase(update: string, base: string, dominant: bool): (r: string)
    ensures r == base <==> (dominant || update == "" || update == base)
    ensures r != base ==> r == update
  {
    if update == "" || dominant then base else update
  }

  /** The first position of `key` in `keys` (`np.where(keys == key)[0][0]`, `list.index`). */
  function FirstIndex(keys: seq<string>, key: string): (k: Option<nat>)
    ensures k.Some? ==> (k.value < |keys| && keys[k.value] == key &&
      forall j :: 0 <= j < k.value ==> keys[j] != key)
    ensures k.None? <==> key !in keys
  {
    if keys == [] then None
    else if keys[0] == key then Some(0)
    else
      var k := FirstIndex(keys[1..], key);
      assert forall j :: 0 <= j < |keys| - 1 ==> keys[1..][j] == keys[j + 1];
      if k.None? then None else Some(k.value + 1)
  }

  // ---------------------------------------------------------------- devices, organizations, variables

  /** A row of `devices.csv`, `organizations.csv` or `variables.csv`: its id, its key (device
      type, organization name or standard name) and its other columns (none; country and link;
      long name and units). */
  datatype Row = Row(id: int, key: string, fields: seq<string>)

  function Field(r: Row, k: nat): string {
    if k < |r.fields| then r.fields[k] else ""
  }

  function Keys(rows: seq<Row>): (ks: seq<string>)
    ensures |ks| == |rows| && forall k :: 0 <= k < |rows| ==> ks[k] == rows[k].key
  {
    seq(|rows|, k requires 0 <= k < |rows| => rows[k].key)
  }

  /** A base row whose key is also in the update table, and whose checked column (the units of
      a variable) differs there: the merge stops. */
  predicate Conflict(b: Row, update: seq<Row>, strict: Option<nat>) {
    var k := FirstIndex(Keys(update), b.key);
    k.Some? && strict.Some? && Field(update[k.value], strict.value) != Field(b, strict.value)
  }

  /** The merged form of one base row: each column from the update row of the same key unless
      that is empty. */
  function MergedRow(b: Row, update: seq<Row>, strict: Option<nat>): (r: Result<Row>)
    ensures r.Err? <==> Conflict(b, update, strict)
    ensures r.Ok? ==> r.value.id == b.id && r.value.key == b.key && |r.value.fields| == |b.fields|
    ensures r.Ok? && b.key !in Keys(update) ==> r.value == b
  {
    var k := FirstIndex(Keys(update), b.key);
    if k.None? then Ok(b)
    else
      var u := update[k.value];
      if strict.Some? && Field(u, strict.value) != Field(b, strict.value) then Err("different units")
      else
        var fields := seq(|b.fields|, j requires 0 <= j < |b.fields| => Prefer(Field(u, j), b.fields[j]));
        assert b.key !in Keys(update) ==> false;
        Ok(Row(b.id, b.key, fields))
  }

  /** The base rows merged one by one; the first conflict stops the merge. */
  function MergedBase(base: seq<Row>, update: seq<Row>, strict: Option<nat>): (r: Result<seq<Row>>)
    ensures r.Ok? ==> (|r.value| == |base| &&
      forall k :: 0 <= k < |base| ==> r.value[k].id == base[k].id && r.value[k].key == base[k].key)
  {
    if base == [] then Ok([])
    else
      var init := MergedBase(base[..|base| - 1], update, strict);
      if init.Err? then init
      else
        var row := MergedRow(base[|base| - 1], update, strict);
        if row.Err? then Err(row.reason) else Ok(init.value + [row.value])
  }

  /** The update rows whose key the base table lacks, in update order. */
  function UpdateOnly(base: seq<Row>, update: seq<Row>): (r: seq<Row>)
    ensures |r| <= |update|
  {
    if update == [] then []
    else
      var init := UpdateOnly(base, update[..|update| - 1]);
      var u := update[|update| - 1];
      if u.key in Keys(base) then init else init + [u]
  }

  /** Exactly the update entries whose key the base lacks are kept. */
  lemma {:induction false} UpdateOnlyMembers(base: seq<Row>, update: seq<Row>)
    ensures forall x :: x in UpdateOnly(base, update) <==> x in update && x.key !in Keys(base)
  {
    if update != [] {
      UpdateOnlyMembers(base, update[..|update| - 1]);
      assert update == update[..|update| - 1] + [update[|update| - 1]];
    }
  }

  /** Rows given consecutive ids after `last`. */
  function Renumber(rows: seq<Row>, last: int): (r: seq<Row>)
    ensures |r| == |rows| && forall k :: 0 <= k < |rows| ==> r[k] == Row(last + k + 1, rows[k].key, rows[k].fields)
  {
    seq(|rows|, k requires 0 <= k < |rows| => Row(last + k + 1, rows[k].key, rows[k].fields))
  }

  function MaxId(rows: seq<Row>): (m: int)
    requires rows != []
    ensures forall k :: 0 <= k < |rows| ==> rows[k].id <= m
    ensures exists k :: 0 <= k < |rows| && rows[k].id == m
  {
    if |rows| == 1 then rows[0].id
    else
      var rest := MaxId(rows[..|rows| - 1]);
      assert forall k :: 0 <= k < |rows| - 1 ==> rows[..|rows| - 1][k] == rows[k];
      if rows[|rows| - 1].id > rest then rows[|rows| - 1].id else rest
  }

  /** A merged table: the base rows merged, then, when the base is not dominant, the update-only
      rows numbered on from the largest base id (the largest of no id being an error). */
  function MergedTable(base: seq<Row>, update: seq<Row>, dominant: bool, strict: Option<nat>): Result<seq<Row>> {
    var merged := MergedBase(base, update, strict);
    if merged.Err? || dominant then merged
    else if base == [] then Err("no id to number new rows from")
    else Ok(merged.value + Renumber(UpdateOnly(base, update), MaxId(base)))
  }

  /** The loop over the base rows. */
  method MergeBaseRows(base: seq<Row>, update: seq<Row>, strict: Option<nat>) returns (r: Result<seq<Row>>)
    ensures r == MergedBase(base, update, strict)
  {
    var merged: seq<Row> := [];
    for i := 0 to |base|
      invariant MergedBase(base[..i], update, strict) == Ok(merged)
    {
      MergedBaseStep(base, update, strict, i);
      var row := MergedRow(base[i], update, strict);
      if row.Err? {
        MergedBaseErrorStays(base, update, strict, i + 1);
        return Err(row.reason);
      }
      merged := merged + [row.value];
    }
    assert base[..|base|] == base;
    r := Ok(merged);
  }

  /** The loop over the update rows, numbering after `top` those the base lacks. */
  method NumberNewRows(base: seq<Row>, update: seq<Row>, top: int) returns (added: seq<Row>)
    ensures added == Renumber(UpdateOnly(base, update), top)
  {
    var id := top;
    added := [];
    for k := 0 to |update|
      invariant added == Renumber(UpdateOnly(base, update[..k]), top)
      invariant id == top + |added|
    {
      NumberNewRowsStep(base, update, top, k);
      if update[k].key !in Keys(base) {
        id := id + 1;
        added := added + [Row(id, update[k].key, update[k].fields)];
      }
    }
    assert update[..|update|] == update;
  }

  lemma {:induction false} MergedBaseStep(base: seq<Row>, update: seq<Row>, strict: Option<nat>, i: nat)
    requires i < |base|
    ensures MergedBase(base[..i + 1], update, strict) ==
      (var init := MergedBase(base[..i], update, strict);
       var row := MergedRow(base[i], update, strict);
       if init.Err? then init else if row.Err? then Err(row.reason) else Ok(init.value + [row.value]))
  {
    assert base[..i + 1][..i] == base[..i];
  }

  lemma {:induction false} NumberNewRowsStep(base: seq<Row>, update: seq<Row>, top: int, k: nat)
    requires k < |update|
    ensures var before := UpdateOnly(base, update[..k]);
      Renumber(UpdateOnly(base, update[..k + 1]), top) ==
      if update[k].key in Keys(base) then Renumber(before, top)
      else Renumber(before, top) + [Row(top + |before| + 1, update[k].key, update[k].fields)]
  {
    assert update[..k + 1][..k] == update[..k];
    if update[k].key !in Keys(base) {
      RenumberAppend(UpdateOnly(base, update[..k]), update[k], top);
    }
  }

  lemma {:induction false} RenumberAppend(rows: seq<Row>, x: Row, last: int)
    ensures Renumber(rows + [x], last) == Renumber(rows, last) + [Row(last + |rows| + 1, x.key, x.fields)]
  {
    var l, r := Renumber(rows + [x], last), Renumber(rows, last) + [Row(last + |rows| + 1, x.key, x.fields)];
    assert |l| == |r|;
    forall k | 0 <= k < |l|
      ensures l[k] == r[k]
    {
      if k < |rows| {
        assert (rows + [x])[k] == rows[k];
      }
    }
  }

  /** One table merged: the base rows, then the update-only rows numbered on from the largest
      merged id. */
  method MergeTable(base: seq<Row>, update: seq<Row>, dominant: bool, strict: Option<nat>)
    returns (r: Result<seq<Row>>)
    ensures r == MergedTable(base, update, dominant, strict)
  {
    r := MergeBaseRows(base, update, strict);
    if r.Err? || dominant {
      return;
    }
    if base == [] {
      return Err("no id to number new rows from");
    }
    var top := MaxId(r.value);
    SameMax(r.value, base);
    var added := NumberNewRows(base, update, top);
    r := Ok(r.value + added);
  }

  /** Once the merge of a prefix fails, the merge of every longer base fails the same way. */
  lemma {:induction false} MergedBaseErrorStays(base: seq<Row>, update: seq<Row>, strict: Option<nat>, i: nat)
    requires i <= |base| && MergedBase(base[..i], update, strict).Err?
    ensures MergedBase(base, update, strict) == MergedBase(base[..i], update, strict)
    decreases |base| - i
  {
    if i < |base| {
      MergedBaseStep(base, update, strict, i);
      MergedBaseErrorStays(base, update, strict, i + 1);
    } else {
      assert base[..i] == base;
    }
  }

  lemma {:induction false} SameMax(a: seq<Row>, b: seq<Row>)
    requires a != [] && |a| == |b| && forall k :: 0 <= k < |a| ==> a[k].id == b[k].id
    ensures MaxId(a) == MaxId(b)
  {
    var ka :| 0 <= ka < |a| && a[ka].id == MaxId(a);
    var kb :| 0 <= kb < |b| && b[kb].id == MaxId(b);
    assert MaxId(a) >= a[kb].id && MaxId(b) >= b[ka].id;
  }

  /** The merge of the base rows fails exactly when some base row conflicts with the update. */
  lemma {:induction false} MergedBaseFailsIffConflict(base: seq<Row>, update: seq<Row>, strict: Option<nat>)
    ensures MergedBase(base, update, strict).Err? <==> exists k :: 0 <= k < |base| && Conflict(base[k], update, strict)
  {
    if base != [] {
      var init := base[..|base| - 1];
      MergedBaseFailsIffConflict(init, update, strict);
      assert forall k :: 0 <= k < |init| ==> init[k] == base[k];
    }
  }

  lemma {:induction false} KeysAppend(a: seq<Row>, b: seq<Row>)
    ensures Keys(a + b) == Keys(a) + Keys(b)
  {
  }

  /** The merged table lists the base keys, in order, then (unless the base is dominant) the
      update-only keys. */
  lemma {:induction false} MergedTableKeys(base: seq<Row>, update: seq<Row>, dominant: bool, strict: Option<nat>)
    requires MergedTable(base, update, dominant, strict).Ok?
    ensures Keys(MergedTable(base, update, dominant, strict).value) ==
      Keys(base) + (if dominant then [] else Keys(UpdateOnly(base, update)))
  {
    var merged := MergedBase(base, update, strict).value;
    assert Keys(merged) == Keys(base);
    if dominant {
      assert Keys(base) + [] == Keys(base);
    } else {
      var only := UpdateOnly(base, update);
      var added := Renumber(only, MaxId(base));
      KeysAppend(merged, added);
      assert Keys(added) == Keys(only);
    }
  }

  /** The base rows keep their ids; the new rows get consecutive ids above every base id. */
  lemma {:induction false} NewIdsFresh(base: seq<Row>, update: seq<Row>, strict: Option<nat>)
    requires MergedTable(base, update, false, strict).Ok?
    ensures var r := MergedTable(base, update, false, strict).value;
      (forall k :: 0 <= k < |base| ==> r[k].id == base[k].id) &&
      (forall k, j :: |base| <= k < |r| && 0 <= j < |base| ==> r[k].id > base[j].id) &&
      (forall k :: |base| < k < |r| ==> r[k].id == r[k - 1].id + 1)
  {
    var r := MergedTable(base, update, false, strict).value;
    var merged := MergedBase(base, update, strict).value;
    var added := Renumber(UpdateOnly(base, update), MaxId(base));
    assert r == merged + added;
    forall k | |base| <= k < |r|
      ensures r[k].id == MaxId(base) + (k - |base|) + 1
    {
      assert r[k] == added[k - |base|];
    }
  }

  // ---------------------------------------------------------------- records of one probe

  /** The depth levels of one record: numbers when they parse as floats, the raw text otherwise
      (`floating`). */
  datatype Depths = Levels(levels: seq<real>) | Unparsed(text: string)

  /** One variable of one probe: the columns of `probes.csv` split on ';'. */
  datatype Record = Record(standardName: string, longitude: real, latitude: real, start: int, end: int,
                           sampling: string, depths: Depths, qc: string, notes: string)

  /** Depths of a shared variable: the base ones when the base is dominant; the sorted union
      when both are numeric. Otherwise the merge stops: the test meant for two floating probes
      compares a value with the type `str` and never holds. */
  function MergeDepths(b: Depths, u: Depths, dominant: bool): (r: Result<Depths>)
    ensures dominant ==> r == Ok(b)
    ensures r.Err? <==> !dominant && (b.Unparsed? || u.Unparsed?)
  {
    if dominant then Ok(b)
    else if b.Levels? && u.Levels? then Ok(Levels(SortedDistinct(b.levels + u.levels)))
    else Err("trying to merge a fixed with a floating probe")
  }

  /** Two numeric depth lists merge into the increasing list of the levels of either. */
  lemma {:induction false} MergeDepthsUnion(b: Depths, u: Depths)
    requires b.Levels? && u.Levels?
    ensures var r := MergeDepths(b, u, false);
      r.Ok? && r.value.Levels? && IncreasingReals(r.value.levels) &&
      forall x :: x in r.value.levels <==> x in b.levels || x in u.levels
  {
  }

  /** The QC class of a shared variable. */
  function MergeQc(b: string, u: string): (r: string)
    ensures r == "FULL" || r == "INVERTED" || r == "NO" || r == "PARTIAL"
  {
    if b == "FULL" && u == "FULL" then "FULL"
    else if b == "INVERTED" && u == "INVERTED" then "INVERTED"
    else if b == "INVERTED" && u == "NO" then "INVERTED"
    else if b == "NO" && u == "NO" then "NO"
    else "PARTIAL"
  }

  /** Each class survives exactly when both catalogues have it, except that an inverted base
      also absorbs an update without QC. */
  lemma {:induction false} MergeQcClasses(b: string, u: string)
    ensures MergeQc(b, u) == "FULL" <==> b == "FULL" && u == "FULL"
    ensures MergeQc(b, u) == "INVERTED" <==> b == "INVERTED" && (u == "INVERTED" || u == "NO")
    ensures MergeQc(b, u) == "NO" <==> b == "NO" && u == "NO"
  {
  }

  /** The merge of QC classes is not symmetric: an inverted base absorbs an update without QC,
      but not the other way round. */
  lemma {:induction false} MergeQcOrderMatters()
    ensures MergeQc("INVERTED", "NO") == "INVERTED" && MergeQc("NO", "INVERTED") == "PARTIAL"
  {
  }

  const BothFindings := "duplicated and reversed records"
  const Reversed := "reversed records"
  const Duplicated := "duplicated records"
  const NotAveraged := "not averaged depth levels"
  const Replaced := "probably replaced sensors"

  function Spaces(s: string): nat {
    if s == [] then 0 else (if s[0] == ' ' then 1 else 0) + Spaces(s[1..])
  }

  /** The first `n` space-separated words (`' '.join(s.split(' ')[0:n])`): the longest prefix
      with fewer than `n` spaces. */
  function FirstWords(s: string, n: nat): (r: string)
    requires n >= 1
    ensures |r| <= |s| && r == s[..|r|]
    ensures Spaces(r) < n
    ensures |r| < |s| ==> s[|r|] == ' ' && Spaces(r) == n - 1
  {
    if s == [] then []
    else if s[0] == ' ' then
      (if n == 1 then [] else [' '] + FirstWords(s[1..], n - 1))
    else [s[0]] + FirstWords(s[1..], n)
  }

  function RenamedPart(b: string): string {
    if Contains(b, "renamed") then FirstWords(b, 3) + " " else ""
  }

  /** The record findings of the merged note, by the source's if-chain. */
  function RecordPart(b: string, u: string): string {
    if Contains(b, BothFindings) || Contains(u, BothFindings) then BothFindings + " "
    else if Contains(b, Reversed) then
      (if Contains(u, Duplicated) then BothFindings + " " else Reversed + " ")
    else if Contains(b, Duplicated) then
      (if Contains(u, Reversed) then BothFindings + " " else Duplicated + " ")
    else if Contains(u, Reversed) then Reversed + " "
    else if Contains(u, Duplicated) then Duplicated + " "
    else ""
  }

  function LevelsPart(b: string, u: string): string {
    if Contains(b, NotAveraged) || Contains(u, NotAveraged) then NotAveraged
    else if Contains(b, Replaced) || Contains(u, Replaced) then Replaced
    else ""
  }

  function Notes(b: string, u: string): string {
    RenamedPart(b) + RecordPart(b, u) + LevelsPart(b, u)
  }

  /** The notes of a shared variable, built piece by piece. */
  method MergeNotes(b: string, u: string) returns (notes: string)
    ensures notes == Notes(b, u)
  {
    notes := "";
    if Contains(b, "renamed") {
      notes := FirstWords(b, 3) + " ";
    }
    notes := AddRecordFindings(b, u, notes);
    notes := AddLevelsFinding(b, u, notes);
  }

  method AddRecordFindings(b: string, u: string, notes0: string) returns (notes: string)
    ensures notes == notes0 + RecordPart(b, u)
  {
    notes := notes0;
    if Contains(b, BothFindings) || Contains(u, BothFindings) {
      notes := notes + BothFindings + " ";
    } else if Contains(b, Reversed) {
      if Contains(u, Duplicated) {
        notes := notes + BothFindings + " ";
      } else {
        notes := notes + Reversed + " ";
      }
    } else if Contains(b, Duplicated) {
      if Contains(u, Reversed) {
        notes := notes + BothFindings + " ";
      } else {
        notes := notes + Duplicated + " ";
      }
    } else if Contains(u, Reversed) {
      notes := notes + Reversed + " ";
    } else if Contains(u, Duplicated) {
      notes := notes + Duplicated + " ";
    }
  }

  method AddLevelsFinding(b: string, u: string, notes0: string) returns (notes: string)
    ensures notes == notes0 + LevelsPart(b, u)
  {
    notes := notes0;
    if Contains(b, NotAveraged) || Contains(u, NotAveraged) {
      notes := notes + NotAveraged;
    } else if Contains(b, Replaced) || Contains(u, Replaced) {
      notes := notes + Replaced;
    }
  }

  /** A note tells of duplicated or reversed records. */
  predicate HasDuplicates(n: string) {
    Contains(n, Duplicated) || Contains(n, BothFindings)
  }

  predicate HasReversal(n: string) {
    Contains(n, Reversed)
  }

  /** The phrase for a pair of findings. */
  function Findings(duplicates: bool, reversal: bool): string {
    if duplicates && reversal then BothFindings + " "
    else if reversal then Reversed + " "
    else if duplicates then Duplicated + " "
    else ""
  }

  /** A note as the pre-processing writes it: both findings only ever as the combined phrase. */
  predicate Consistent(n: string) {
    !(Contains(n, Duplicated) && Contains(n, Reversed) && !Contains(n, BothFindings))
  }

  /** The record part of a merged note is the union of the findings of the two notes. */
  lemma {:induction false} RecordPartIsUnion(b: string, u: string)
    requires Consistent(b) && Consistent(u)
    ensures RecordPart(b, u) == Findings(HasDuplicates(b) || HasDuplicates(u), HasReversal(b) || HasReversal(u))
  {
    assert BothFindings == "duplicated and " + Reversed;
    if Contains(b, BothFindings) {
      ContainsEnding(b, "duplicated and ", Reversed);
    }
    if Contains(u, BothFindings) {
      ContainsEnding(u, "duplicated and ", Reversed);
    }
  }

  /** 'not averaged depth levels' from either note wins over 'probably replaced sensors'. */
  lemma {:induction false} NotAveragedFirst(b: string, u: string)
    requires Contains(b, NotAveraged) || Contains(u, NotAveraged)
    ensures LevelsPart(b, u) == NotAveraged && !Contains(LevelsPart(b, u), Replaced)
  {
    ContainsIsSubstring(NotAveraged, Replaced);
    forall e | |Replaced| <= e <= |NotAveraged|
      ensures Replaced != Ending(NotAveraged, e, |Replaced|)
    {
      assert Ending(NotAveraged, e, |Replaced|)[0] == 'n';
    }
  }

  // ---------------------------------------------------------------- one shared variable

  /** `a` lies between `x` and `y`. */
  predicate Between(x: real, y: real, a: real) {
    (x <= a <= y) || (y <= a <= x)
  }

  /** The sampling time of a variable the two catalogues sample differently. */
  const VariableSampling: string := "variable between datasets"

  /** A variable both probes have: mean position, the wider record span, the common sampling
      time or 'variable between datasets', and the merged depths, QC class and notes. */
  function MergedRecord(b: Record, u: Record, dominant: bool): (r: Result<Record>)
    ensures r.Err? <==> MergeDepths(b.depths, u.depths, dominant).Err?
    ensures r.Ok? ==> r.value.standardName == b.standardName
  {
    var depths := MergeDepths(b.depths, u.depths, dominant);
    if depths.Err? then Err(depths.reason)
    else
      Ok(Record(b.standardName, (b.longitude + u.longitude) / 2.0, (b.latitude + u.latitude) / 2.0,
                if b.start <= u.start then b.start else u.start,
                if b.end >= u.end then b.end else u.end,
                if u.sampling != b.sampling then VariableSampling else b.sampling,
                depths.value, MergeQc(b.qc, u.qc), Notes(b.notes, u.notes)))
  }

  /** The merged position lies between the two, the span covers both, and a common sampling
      time is kept. */
  lemma {:induction false} MergedRecordBounds(b: Record, u: Record, dominant: bool)
    requires MergedRecord(b, u, dominant).Ok?
    ensures var r := MergedRecord(b, u, dominant).value;
      Between(b.longitude, u.longitude, r.longitude) && Between(b.latitude, u.latitude, r.latitude) &&
      r.start <= b.start && r.start <= u.start && (r.start == b.start || r.start == u.start) &&
      r.end >= b.end && r.end >= u.end && (r.end == b.end || r.end == u.end) &&
      (b.sampling == u.sampling ==> r.sampling == b.sampling) &&
      (b.sampling != u.sampling ==> r.sampling == VariableSampling)
  {
  }

  /** Position and record span of a merged variable do not depend on which catalogue is the
      base. */
  lemma {:induction false} MergedRecordSymmetric(b: Record, u: Record)
    requires b.standardName == u.standardName
    requires MergedRecord(b, u, false).Ok?
    ensures MergedRecord(u, b, false).Ok?
    ensures var r, s := MergedRecord(b, u, false).value, MergedRecord(u, b, false).value;
      r.longitude == s.longitude && r.latitude == s.latitude && r.start == s.start && r.end == s.end &&
      (r.sampling == VariableSampling <==> s.sampling == VariableSampling)
  {
  }

  /** The merged record, field by field. */
  lemma {:induction false} MergedRecordIs(b: Record, u: Record, dominant: bool, m: Record)
    requires MergeDepths(b.depths, u.depths, dominant).Ok?
    requires m.standardName == b.standardName && m.longitude == (b.longitude + u.longitude) / 2.0
    requires m.latitude == (b.latitude + u.latitude) / 2.0
    requires m.start == (if b.start <= u.start then b.start else u.start)
    requires m.end == (if b.end >= u.end then b.end else u.end)
    requires m.sampling == (if u.sampling != b.sampling then VariableSampling else b.sampling)
    requires m.depths == MergeDepths(b.depths, u.depths, dominant).value
    requires m.qc == MergeQc(b.qc, u.qc) && m.notes == Notes(b.notes, u.notes)
    ensures MergedRecord(b, u, dominant) == Ok(m)
  {
    assert m == Record(m.standardName, m.longitude, m.latitude, m.start, m.end, m.sampling, m.depths, m.qc, m.notes);
  }

  /** The merged form of one variable of a shared probe; a variable the update probe lacks is
      copied. */
  method MergeRecord(b: Record, u: Record, dominant: bool) returns (r: Result<Record>)
    ensures r == MergedRecord(b, u, dominant)
  {
    var longitude := (b.longitude + u.longitude) / 2.0;
    var latitude := (b.latitude + u.latitude) / 2.0;
    var start := if b.start <= u.start then b.start else u.start;
    var end := if b.end >= u.end then b.end else u.end;
    var sampling := b.sampling;
    if u.sampling != b.sampling {
      sampling := VariableSampling;
    }
    var depths := MergeDepths(b.depths, u.depths, dominant);
    if depths.Err? {
      return Err(depths.reason);
    }
    var qc := MergeQc(b.qc, u.qc);
    var notes := MergeNotes(b.notes, u.notes);
    r := Ok(Record(b.standardName, longitude, latitude, start, end, sampling, depths.value, qc, notes));
    MergedRecordIs(b, u, dominant, r.value);
  }

  function Names(records: seq<Record>): (ns: seq<string>)
    ensures |ns| == |records| && forall k :: 0 <= k < |records| ==> ns[k] == records[k].standardName
  {
    seq(|records|, k requires 0 <= k < |records| => records[k].standardName)
  }

  /** A base variable merged with the first update variable of the same name, or copied. */
  function MergedOrCopied(b: Record, update: seq<Record>, dominant: bool): (r: Result<Record>)
    ensures r.Ok? ==> r.value.standardName == b.standardName
  {
    var k := FirstIndex(Names(update), b.standardName);
    if k.None? then Ok(b) else MergedRecord(b, update[k.value], dominant)
  }

  function MergedBaseRecords(base: seq<Record>, update: seq<Record>, dominant: bool): (r: Result<seq<Record>>)
    ensures r.Ok? ==> (|r.value| == |base| &&
      forall k :: 0 <= k < |base| ==> r.value[k].standardName == base[k].standardName)
  {
    if base == [] then Ok([])
    else
      var init := MergedBaseRecords(base[..|base| - 1], update, dominant);
      if init.Err? then init
      else
        var rec := MergedOrCopied(base[|base| - 1], update, dominant);
        if rec.Err? then Err(rec.reason) else Ok(init.value + [rec.value])
  }

  /** The update variables whose name the base probe lacks, in update order. */
  function UpdateOnlyRecords(base: seq<Record>, update: seq<Record>): (r: seq<Record>)
    ensures |r| <= |update|
  {
    if update == [] then []
    else
      var init := UpdateOnlyRecords(base, update[..|update| - 1]);
      var u := update[|update| - 1];
      if u.standardName in Names(base) then init else init + [u]
  }

  /** Exactly the update entries whose key the base lacks are kept. */
  lemma {:induction false} UpdateOnlyRecordsMembers(base: seq<Record>, update: seq<Record>)
    ensures forall x :: x in UpdateOnlyRecords(base, update) <==> x in update && x.standardName !in Names(base)
  {
    if update != [] {
      UpdateOnlyRecordsMembers(base, update[..|update| - 1]);
      assert update == update[..|update| - 1] + [update[|update| - 1]];
    }
  }

  /** The variables of a shared probe: the base ones merged or copied, then, unless the base is
      dominant, the update-only ones copied. */
  function MergedRecords(base: seq<Record>, update: seq<Record>, dominant: bool): (r: Result<seq<Record>>)
    ensures r.Err? <==> MergedBaseRecords(base, update, dominant).Err?
  {
    var merged := MergedBaseRecords(base, update, dominant);
    if merged.Err? || dominant then merged
    else Ok(merged.value + UpdateOnlyRecords(base, update))
  }

  /** A shared probe keeps its variables in base order, followed by the update-only ones unless
      the base is dominant. */
  lemma {:induction false} MergedRecordsNames(base: seq<Record>, update: seq<Record>, dominant: bool)
    requires MergedRecords(base, update, dominant).Ok?
    ensures Names(MergedRecords(base, update, dominant).value) ==
      Names(base) + (if dominant then [] else Names(UpdateOnlyRecords(base, update)))
  {
    var merged := MergedBaseRecords(base, update, dominant).value;
    assert Names(merged) == Names(base);
    if !dominant {
      var only := UpdateOnlyRecords(base, update);
      assert Names(merged + only) == Names(merged) + Names(only);
    } else {
      assert Names(base) + [] == Names(base);
    }
  }

  /** The loop over the variables of the base probe. */
  method MergeBaseRecords(base: seq<Record>, update: seq<Record>, dominant: bool) returns (r: Result<seq<Record>>)
    ensures r == MergedBaseRecords(base, update, dominant)
  {
    var merged: seq<Record> := [];
    for i := 0 to |base|
      invariant MergedBaseRecords(base[..i], update, dominant) == Ok(merged)
    {
      MergedBaseRecordsStep(base, update, dominant, i);
      var k := FirstIndex(Names(update), base[i].standardName);
      var rec: Result<Record> := Ok(base[i]);
      if k.Some? {
        rec := MergeRecord(base[i], update[k.value], dominant);
      }
      assert rec == MergedOrCopied(base[i], update, dominant);
      if rec.Err? {
        MergedRecordsErrorStays(base, update, dominant, i + 1);
        return Err(rec.reason);
      }
      merged := merged + [rec.value];
    }
    assert base[..|base|] == base;
    r := Ok(merged);
  }

  /** The loop over the variables only the update probe has. */
  method CopyNewRecords(base: seq<Record>, update: seq<Record>) returns (added: seq<Record>)
    ensures added == UpdateOnlyRecords(base, update)
  {
    added := [];
    for k := 0 to |update|
      invariant added == UpdateOnlyRecords(base, update[..k])
    {
      UpdateOnlyRecordsStep(base, update, k);
      if update[k].standardName !in Names(base) {
        added := added + [update[k]];
      }
    }
    assert update[..|update|] == update;
  }

  lemma {:induction false} MergedBaseRecordsStep(base: seq<Record>, update: seq<Record>, dominant: bool, i: nat)
    requires i < |base|
    ensures MergedBaseRecords(base[..i + 1], update, dominant) ==
      (var init := MergedBaseRecords(base[..i], update, dominant);
       var rec := MergedOrCopied(base[i], update, dominant);
       if init.Err? then init else if rec.Err? then Err(rec.reason) else Ok(init.value + [rec.value]))
  {
    assert base[..i + 1][..i] == base[..i];
  }

  lemma {:induction false} UpdateOnlyRecordsStep(base: seq<Record>, update: seq<Record>, k: nat)
    requires k < |update|
    ensures UpdateOnlyRecords(base, update[..k + 1]) ==
      if update[k].standardName in Names(base) then UpdateOnlyRecords(base, update[..k])
      else UpdateOnlyRecords(base, update[..k]) + [update[k]]
  {
    assert update[..k + 1][..k] == update[..k];
  }

  /** The variables of a shared probe. */
  method MergeRecords(base: seq<Record>, update: seq<Record>, dominant: bool) returns (r: Result<seq<Record>>)
    ensures r == MergedRecords(base, update, dominant)
  {
    r := MergeBaseRecords(base, update, dominant);
    if r.Err? || dominant {
      return;
    }
    var added := CopyNewRecords(base, update);
    r := Ok(r.value + added);
  }

  lemma {:induction false} MergedRecordsErrorStays(base: seq<Record>, update: seq<Record>, dominant: bool, i: nat)
    requires i <= |base| && MergedBaseRecords(base[..i], update, dominant).Err?
    ensures MergedBaseRecords(base, update, dominant) == MergedBaseRecords(base[..i], update, dominant)
    decreases |base| - i
  {
    if i < |base| {
      MergedBaseRecordsStep(base, update, dominant, i);
      MergedRecordsErrorStays(base, update, dominant, i + 1);
    } else {
      assert base[..i] == base;
    }
  }

  // ---------------------------------------------------------------- probes

  datatype Probe = Probe(id: int, code: string, name: string, wmo: string, deviceType: string,
                         organization: string, records: seq<Record>, link: string)

  function Codes(probes: seq<Probe>): (cs: seq<string>)
    ensures |cs| == |probes| && forall k :: 0 <= k < |probes| ==> cs[k] == probes[k].code
  {
    seq(|probes|, k requires 0 <= k < |probes| => probes[k].code)
  }

  /** A probe both catalogues have. */
  function MergedProbe(b: Probe, u: Probe, dominant: bool): (r: Result<Probe>)
    ensures r.Ok? ==> r.value.id == b.id && r.value.code == b.code
  {
    var records := MergedRecords(b.records, u.records, dominant);
    if records.Err? then Err(records.reason)
    else Ok(Probe(b.id, b.code, Prefer(u.name, b.name), Prefer(u.wmo, b.wmo),
                  PreferBase(u.deviceType, b.deviceType, dominant),
                  PreferBase(u.organization, b.organization, dominant),
                  records.value, Prefer(u.link, b.link)))
  }

  function MergedBaseProbes(base: seq<Probe>, update: seq<Probe>, dominant: bool): (r: Result<seq<Probe>>)
    ensures r.Ok? ==> (|r.value| == |base| &&
      forall k :: 0 <= k < |base| ==> r.value[k].id == base[k].id && r.value[k].code == base[k].code)
  {
    if base == [] then Ok([])
    else
      var init := MergedBaseProbes(base[..|base| - 1], update, dominant);
      if init.Err? then init
      else
        var p := MergedOrCopiedProbe(base[|base| - 1], update, dominant);
        if p.Err? then Err(p.reason) else Ok(init.value + [p.value])
  }

  /** A base probe merged with the first update probe of the same code, or copied. */
  function MergedOrCopiedProbe(b: Probe, update: seq<Probe>, dominant: bool): (r: Result<Probe>)
    ensures r.Ok? ==> r.value.id == b.id && r.value.code == b.code
  {
    var k := FirstIndex(Codes(update), b.code);
    if k.None? then Ok(b) else MergedProbe(b, update[k.value], dominant)
  }

  function UpdateOnlyProbes(base: seq<Probe>, update: seq<Probe>): (r: seq<Probe>)
    ensures |r| <= |update|
  {
    if update == [] then []
    else
      var init := UpdateOnlyProbes(base, update[..|update| - 1]);
      var u := update[|update| - 1];
      if u.code in Codes(base) then init else init + [u]
  }

  /** Exactly the update entries whose key the base lacks are kept. */
  lemma {:induction false} UpdateOnlyProbesMembers(base: seq<Probe>, update: seq<Probe>)
    ensures forall x :: x in UpdateOnlyProbes(base, update) <==> x in update && x.code !in Codes(base)
  {
    if update != [] {
      UpdateOnlyProbesMembers(base, update[..|update| - 1]);
      assert update == update[..|update| - 1] + [update[|update| - 1]];
    }
  }

  /** Probes given consecutive ids after `last`. */
  function RenumberProbes(probes: seq<Probe>, last: int): (r: seq<Probe>)
    ensures |r| == |probes| && forall k :: 0 <= k < |probes| ==> r[k] == probes[k].(id := last + k + 1)
  {
    seq(|probes|, k requires 0 <= k < |probes| => probes[k].(id := last + k + 1))
  }

  lemma {:induction false} RenumberProbesAppend(probes: seq<Probe>, p: Probe, last: int)
    ensures RenumberProbes(probes + [p], last) == RenumberProbes(probes, last) + [p.(id := last + |probes| + 1)]
  {
    var l, r := RenumberProbes(probes + [p], last), RenumberProbes(probes, last) + [p.(id := last + |probes| + 1)];
    assert |l| == |r|;
    forall k | 0 <= k < |l|
      ensures l[k] == r[k]
    {
      if k < |probes| {
        assert (probes + [p])[k] == probes[k];
      }
    }
  }

  /** The probes table: the base probes merged or copied, then, unless the base is dominant, the
      update-only probes numbered on from the count of merged probes (not from the largest
      id). */
  function MergedProbes(base: seq<Probe>, update: seq<Probe>, dominant: bool): (r: Result<seq<Probe>>)
    ensures r.Ok? ==> |r.value| >= |base| && Codes(r.value)[..|base|] == Codes(base)
    ensures r.Ok? && !dominant ==> forall k :: |base| <= k < |r.value| ==> r.value[k].id == k + 1
    ensures r.Ok? && dominant ==> |r.value| == |base|
  {
    var merged := MergedBaseProbes(base, update, dominant);
    if merged.Err? || dominant then merged
    else
      Ok(merged.value + RenumberProbes(UpdateOnlyProbes(base, update), |base|))
  }

  /** A probe both catalogues have. */
  method MergeProbe(b: Probe, u: Probe, dominant: bool) returns (r: Result<Probe>)
    ensures r == MergedProbe(b, u, dominant)
  {
    var records := MergeRecords(b.records, u.records, dominant);
    if records.Err? {
      return Err(records.reason);
    }
    var name := Prefer(u.name, b.name);
    var wmo := Prefer(u.wmo, b.wmo);
    var deviceType := PreferBase(u.deviceType, b.deviceType, dominant);
    var organization := PreferBase(u.organization, b.organization, dominant);
    var link := Prefer(u.link, b.link);
    r := Ok(Probe(b.id, b.code, name, wmo, deviceType, organization, records.value, link));
  }

  /** The loop over the base probes. */
  method MergeBaseProbes(base: seq<Probe>, update: seq<Probe>, dominant: bool) returns (r: Result<seq<Probe>>)
    ensures r == MergedBaseProbes(base, update, dominant)
  {
    var merged: seq<Probe> := [];
    for i := 0 to |base|
      invariant MergedBaseProbes(base[..i], update, dominant) == Ok(merged)
    {
      MergedBaseProbesStep(base, update, dominant, i);
      var k := FirstIndex(Codes(update), base[i].code);
      var p: Result<Probe> := Ok(base[i]);
      if k.Some? {
        p := MergeProbe(base[i], update[k.value], dominant);
      }
      assert p == MergedOrCopiedProbe(base[i], update, dominant);
      if p.Err? {
        MergedProbesErrorStays(base, update, dominant, i + 1);
        return Err(p.reason);
      }
      merged := merged + [p.value];
    }
    assert base[..|base|] == base;
    r := Ok(merged);
  }

  /** The loop over the update-only probes, incrementing the probe counter. */
  method NumberNewProbes(base: seq<Probe>, update: seq<Probe>) returns (added: seq<Probe>)
    ensures added == RenumberProbes(UpdateOnlyProbes(base, update), |base|)
  {
    var id := |base|;
    added := [];
    for k := 0 to |update|
      invariant added == RenumberProbes(UpdateOnlyProbes(base, update[..k]), |base|)
      invariant id == |base| + |added|
    {
      NumberNewProbesStep(base, update, k);
      if update[k].code !in Codes(base) {
        id := id + 1;
        added := added + [update[k].(id := id)];
      }
    }
    assert update[..|update|] == update;
  }

  lemma {:induction false} MergedBaseProbesStep(base: seq<Probe>, update: seq<Probe>, dominant: bool, i: nat)
    requires i < |base|
    ensures MergedBaseProbes(base[..i + 1], update, dominant) ==
      (var init := MergedBaseProbes(base[..i], update, dominant);
       var p := MergedOrCopiedProbe(base[i], update, dominant);
       if init.Err? then init else if p.Err? then Err(p.reason) else Ok(init.value + [p.value]))
  {
    assert base[..i + 1][..i] == base[..i];
  }

  lemma {:induction false} NumberNewProbesStep(base: seq<Probe>, update: seq<Probe>, k: nat)
    requires k < |update|
    ensures var before := UpdateOnlyProbes(base, update[..k]);
      RenumberProbes(UpdateOnlyProbes(base, update[..k + 1]), |base|) ==
      if update[k].code in Codes(base) then RenumberProbes(before, |base|)
      else RenumberProbes(before, |base|) + [update[k].(id := |base| + |before| + 1)]
  {
    assert update[..k + 1][..k] == update[..k];
    if update[k].code !in Codes(base) {
      RenumberProbesAppend(UpdateOnlyProbes(base, update[..k]), update[k], |base|);
    }
  }

  /** The probes table. */
  method MergeProbes(base: seq<Probe>, update: seq<Probe>, dominant: bool) returns (r: Result<seq<Probe>>)
    ensures r == MergedProbes(base, update, dominant)
  {
    r := MergeBaseProbes(base, update, dominant);
    if r.Err? || dominant {
      return;
    }
    var added := NumberNewProbes(base, update);
    r := Ok(r.value + added);
  }

  lemma {:induction false} MergedProbesErrorStays(base: seq<Probe>, update: seq<Probe>, dominant: bool, i: nat)
    requires i <= |base| && MergedBaseProbes(base[..i], update, dominant).Err?
    ensures MergedBaseProbes(base, update, dominant) == MergedBaseProbes(base[..i], update, dominant)
    decreases |base| - i
  {
    if i < |base| {
      MergedBaseProbesStep(base, update, dominant, i);
      MergedProbesErrorStays(base, update, dominant, i + 1);
    } else {
      assert base[..i] == base;
    }
  }

  /** Numbering new probes by count can repeat an id of the base: a single base probe with id 2
      and one update-only probe both end with id 2. */
  lemma {:induction false} ProbeIdsCanRepeat(b: Probe, u: Probe)
    requires b.id == 2 && b.code != u.code
    ensures MergedProbes([b], [u], false).Ok?
    ensures var r := MergedProbes([b], [u], false).value; |r| == 2 && r[0].id == r[1].id
  {
    assert Codes([u]) == [u.code];
    assert FirstIndex([u.code], b.code).None?;
    assert [b][..0] == [];
    assert MergedBaseProbes([b][..0], [u], false) == Ok([]);
    assert FirstIndex(Codes([u]), b.code).None?;
    assert MergedBaseProbes([b], [u], false) == Ok([] + [b]);
    assert UpdateOnlyProbes([b], [u]) == [u] by {
      assert [u][..0] == [];
      assert u.code !in Codes([b]);
    }
  }

  // ---------------------------------------------------------------- the output probes table

  /** A probe as written: device type, organization and variables given by their ids in the
      merged tables. */
  datatype ProbeRow = ProbeRow(id: int, code: string, name: string, wmo: string, deviceId: int,
                               organizationId: int, variableIds: seq<int>, records: seq<Record>, link: string)

  /** The id of the first row of `rows` with that key. */
  function IdOf(rows: seq<Row>, key: string): (r: Option<int>)
    ensures r.None? <==> key !in Keys(rows)
    ensures r.Some? ==> exists k :: (0 <= k < |rows| && rows[k].key == key && rows[k].id == r.value &&
      forall j :: 0 <= j < k ==> rows[j].key != key)
  {
    var k := FirstIndex(Keys(rows), key);
    if k.None? then None else Some(rows[k.value].id)
  }

  /** The ids of the variables of one probe; a name missing from the variables table stops the
      run. */
  method VariableIds(records: seq<Record>, variables: seq<Row>) returns (r: Result<seq<int>>)
    ensures r.Ok? <==> forall k :: 0 <= k < |records| ==> records[k].standardName in Keys(variables)
    ensures r.Ok? ==> (|r.value| == |records| &&
      forall k :: 0 <= k < |records| ==> Some(r.value[k]) == IdOf(variables, records[k].standardName))
  {
    var ids: seq<int> := [];
    for k := 0 to |records|
      invariant |ids| == k
      invariant forall j :: 0 <= j < k ==> (records[j].standardName in Keys(variables) &&
        Some(ids[j]) == IdOf(variables, records[j].standardName))
    {
      var id := IdOf(variables, records[k].standardName);
      if id.None? {
        return Err("unknown variable");
      }
      ids := ids + [id.value];
    }
    r := Ok(ids);
  }

  /** `row` is `p` written with the ids of its device type, organization and variables. */
  predicate Written(p: Probe, row: ProbeRow, devices: seq<Row>, organizations: seq<Row>, variables: seq<Row>) {
    row.id == p.id && row.code == p.code && row.name == p.name && row.wmo == p.wmo &&
    row.records == p.records && row.link == p.link &&
    Some(row.deviceId) == IdOf(devices, p.deviceType) &&
    Some(row.organizationId) == IdOf(organizations, p.organization) &&
    |row.variableIds| == |p.records| &&
    forall j :: 0 <= j < |p.records| ==> Some(row.variableIds[j]) == IdOf(variables, p.records[j].standardName)
  }

  /** Every device type, organization and variable name the probes use is in the merged tables. */
  predicate Resolvable(probes: seq<Probe>, devices: seq<Row>, organizations: seq<Row>, variables: seq<Row>) {
    forall k :: 0 <= k < |probes| ==>
      probes[k].deviceType in Keys(devices) && probes[k].organization in Keys(organizations) &&
      forall j :: 0 <= j < |probes[k].records| ==> probes[k].records[j].standardName in Keys(variables)
  }

  /** The last loop: every merged probe written with ids in place of names. */
  method ProbeRows(probes: seq<Probe>, devices: seq<Row>, organizations: seq<Row>, variables: seq<Row>)
    returns (r: Result<seq<ProbeRow>>)
    ensures r.Ok? <==> Resolvable(probes, devices, organizations, variables)
    ensures r.Ok? ==> (|r.value| == |probes| &&
      forall k :: 0 <= k < |probes| ==> Written(probes[k], r.value[k], devices, organizations, variables))
    ensures r.Err? ==> exists k :: (0 <= k < |probes| && (probes[k].deviceType !in Keys(devices) ||
      probes[k].organization !in Keys(organizations) ||
      exists j :: 0 <= j < |probes[k].records| && probes[k].records[j].standardName !in Keys(variables)))
  {
    var rows: seq<ProbeRow> := [];
    for k := 0 to |probes|
      invariant |rows| == k
      invariant forall m :: 0 <= m < k ==> Written(probes[m], rows[m], devices, organizations, variables)
    {
      var p := probes[k];
      var device := IdOf(devices, p.deviceType);
      if device.None? {
        return Err("unknown device type");
      }
      var organization := IdOf(organizations, p.organization);
      if organization.None? {
        return Err("unknown organization");
      }
      var ids := VariableIds(p.records, variables);
      if ids.Err? {
        return Err(ids.reason);
      }
      rows := rows + [ProbeRow(p.id, p.code, p.name, p.wmo, device.value, organization.value,
                               ids.value, p.records, p.link)];
    }
    r := Ok(rows);
  }

  // ---------------------------------------------------------------- the whole merge

  datatype Catalogue = Catalogue(devices: seq<Row>, organizations: seq<Row>, variables: seq<Row>, probes: seq<Probe>)

  datatype Merged = Merged(devices: seq<Row>, organizations: seq<Row>, variables: seq<Row>, probes: seq<ProbeRow>)

  /** The tables merged in the source's order; variables stop at differing units. */
  method MetadataMerger(base: Catalogue, update: Catalogue, dominant: bool) returns (r: Result<Merged>)
    ensures r.Ok? ==> MergedTable(base.devices, update.devices, dominant, None) == Ok(r.value.devices)
    ensures r.Ok? ==> MergedTable(base.organizations, update.organizations, dominant, None) == Ok(r.value.organizations)
    ensures r.Ok? ==> MergedTable(base.variables, update.variables, dominant, Some(1)) == Ok(r.value.variables)
    ensures r.Ok? ==> (MergedProbes(base.probes, update.probes, dominant).Ok? &&
      |r.value.probes| == |MergedProbes(base.probes, update.probes, dominant).value|)
    ensures MergedTable(base.variables, update.variables, dominant, Some(1)).Err? ==> r.Err?
    ensures r.Ok? ==> var probes := MergedProbes(base.probes, update.probes, dominant).value;
      forall k :: 0 <= k < |probes| ==>
        Written(probes[k], r.value.probes[k], r.value.devices, r.value.organizations, r.value.variables)
    ensures r.Ok? <==>
      MergedTable(base.devices, update.devices, dominant, None).Ok? &&
      MergedTable(base.organizations, update.organizations, dominant, None).Ok? &&
      MergedTable(base.variables, update.variables, dominant, Some(1)).Ok? &&
      MergedProbes(base.probes, update.probes, dominant).Ok? &&
      Resolvable(MergedProbes(base.probes, update.probes, dominant).value,
                 MergedTable(base.devices, update.devices, dominant, None).value,
                 MergedTable(base.organizations, update.organizations, dominant, None).value,
                 MergedTable(base.variables, update.variables, dominant, Some(1)).value)
  {
    var devices := MergeTable(base.devices, update.devices, dominant, None);
    if devices.Err? {
      return Err(devices.reason);
    }
    var organizations := MergeTable(base.organizations, update.organizations, dominant, None);
    if organizations.Err? {
      return Err(organizations.reason);
    }
    var variables := MergeTable(base.variables, update.variables, dominant, Some(1));
    if variables.Err? {
      return Err(variables.reason);
    }
    var probes := MergeProbes(base.probes, update.probes, dominant);
    if probes.Err? {
      return Err(probes.reason);
    }
    var rows := ProbeRows(probes.value, devices.value, organizations.value, variables.value);
    if rows.Err? {
      return Err(rows.reason);
    }
    r := Ok(Merged(devices.value, organizations.value, variables.value, rows.value));
  }
}
