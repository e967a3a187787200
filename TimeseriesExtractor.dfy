/** `insitu_tac_timeseries_extractor`: the records and depth levels of one variable of an in-situ
    platform file that pass the time, position, depth and pressure QC and the date cut
    (SOURCE/obs_postpro/insitu_tac_timeseries_extractor.py). Arrays are records by levels,
    `None` standing for a masked entry; times are whole seconds since 1970. */
module TimeseriesExtractor {
  import opened Wrappers
  import opened Series

  /** `n` rows of `l` columns each. */
  predicate Rect<T>(m: seq<seq<T>>, n: nat, l: nat) {
    |m| == n && forall j :: 0 <= j < n ==> |m[j]| == l
  }

  /** The file, already read: time QC, position QC, longitude and latitude may be absent or
      hold a single value; depth and pressure and their QC may be absent; the variable QC may be
      absent. `levels` is the length of the `DEPTH` dimension (1 when there is none). */
  datatype Source = Source(
    times: seq<int>, timeQc: Option<seq<int>>, positionQc: Option<seq<int>>,
    lon: seq<real>, lat: seq<real>,
    depth: Option<seq<seq<Option<real>>>>, depthQc: Option<seq<seq<int>>>,
    pres: Option<seq<seq<Option<real>>>>, presQc: Option<seq<seq<int>>>,
    name: string, values: seq<seq<Option<real>>>, qc: Option<seq<seq<Option<int>>>>, levels: nat)

  /** Every per-record array has one entry per record, every per-level array `levels` entries
      per record. */
  predicate WellFormed(s: Source) {
    var n, l := |s.times|, s.levels;
    (s.timeQc.Some? ==> |s.timeQc.value| == n) &&
    (s.depth.Some? ==> Rect(s.depth.value, n, l)) && (s.depthQc.Some? ==> Rect(s.depthQc.value, n, l)) &&
    (s.pres.Some? ==> Rect(s.pres.value, n, l)) && (s.presQc.Some? ==> Rect(s.presQc.value, n, l)) &&
    Rect(s.values, n, l) && (s.qc.Some? ==> Rect(s.qc.value, n, l))
  }

  // ---------------------------------------------------------------- record selection

  /** Flag 7 ("nominal value") counts as 2 ("probably good") for time-independent QC. */
  function Nominal(q: int): int {
    if q == 7 then 2 else q
  }

  /** A per-record array of length `n`, or a single value repeated `n` times; any other length
      is refused. */
  function Spread<T>(a: seq<T>, n: nat): (r: Result<seq<T>>)
    ensures r.Ok? <==> |a| == n || |a| == 1
    ensures r.Ok? ==> |r.value| == n && forall j :: 0 <= j < n ==> r.value[j] == (if |a| == n then a[j] else a[0])
  {
    if |a| == n then Ok(a)
    else if |a| == 1 then Ok(seq(n, _ => a[0]))
    else Err("array and time dimension variables have not the same size")
  }

  /** `time_qc_mask`: TIME_QC at most 2, every record when there is no TIME_QC. */
  function TimeQcMask(n: nat, timeQc: Option<seq<int>>): (m: seq<bool>)
    requires timeQc.Some? ==> |timeQc.value| == n
    ensures |m| == n && forall j :: 0 <= j < n ==> (m[j] <==> timeQc.None? || timeQc.value[j] <= 2)
  {
    if timeQc.None? then seq(n, _ => true) else seq(n, j requires 0 <= j < n => timeQc.value[j] <= 2)
  }

  /** `position_qc_mask`: POSITION_QC, spread over the records, at most 2 once 7 counts as 2;
      every record when there is no POSITION_QC. */
  function PositionQcMask(n: nat, positionQc: Option<seq<int>>): (m: Result<seq<bool>>)
    ensures m.Ok? <==> positionQc.None? || |positionQc.value| == n || |positionQc.value| == 1
    ensures m.Ok? ==> |m.value| == n
    ensures m.Ok? && positionQc.Some? ==> forall j :: 0 <= j < n ==>
      (m.value[j] <==> Nominal(Spread(positionQc.value, n).value[j]) <= 2)
    ensures m.Ok? && positionQc.None? ==> forall j :: 0 <= j < n ==> m.value[j]
  {
    if positionQc.None? then Ok(seq(n, _ => true))
    else
      var q := Spread(positionQc.value, n);
      if q.Err? then Err(q.reason) else Ok(seq(n, j requires 0 <= j < n => Nominal(q.value[j]) <= 2))
  }

  /** `good_time_mask`: time QC and position QC both good. */
  function GoodMask(s: Source): (m: Result<seq<bool>>)
    requires WellFormed(s)
    ensures m.Ok? <==> PositionQcMask(|s.times|, s.positionQc).Ok?
    ensures m.Ok? ==> |m.value| == |s.times|
  {
    var position := PositionQcMask(|s.times|, s.positionQc);
    if position.Err? then Err(position.reason) else Ok(And(TimeQcMask(|s.times|, s.timeQc), position.value))
  }

  /** The records kept by the QC filter, then by the date cut. */
  function Pick<T>(a: seq<T>, good: seq<bool>, cut: seq<bool>): seq<T>
    requires |a| == |good| && |cut| == CountTrue(good)
  {
    SelectSize(a, good);
    Select(Select(a, good), cut)
  }

  // ---------------------------------------------------------------- level masks

  /** A per-level mask of the same shape as `q`. */
  function LevelMask(q: seq<seq<int>>, good: int -> bool): (m: seq<seq<bool>>)
    ensures |m| == |q| && forall j :: 0 <= j < |q| ==> |m[j]| == |q[j]|
    ensures forall j, d :: 0 <= j < |q| && 0 <= d < |q[j]| ==> m[j][d] == good(q[j][d])
  {
    seq(|q|, j requires 0 <= j < |q| => seq(|q[j]|, d requires 0 <= d < |q[j]| => good(q[j][d])))
  }

  /** `in_depth_qc_mask`: DEPH_QC at most 2 once 7 counts as 2. */
  function DepthQcMask(q: seq<seq<int>>): (m: seq<seq<bool>>)
    ensures |m| == |q| && forall j :: 0 <= j < |q| ==> |m[j]| == |q[j]|
    ensures forall j, d :: 0 <= j < |q| && 0 <= d < |q[j]| ==> (m[j][d] <==> Nominal(q[j][d]) <= 2)
  {
    LevelMask(q, f => Nominal(f) <= 2)
  }

  predicate AllSeven(q: seq<seq<int>>) {
    forall j, d :: 0 <= j < |q| && 0 <= d < |q[j]| ==> q[j][d] == 7
  }

  /** `in_pres_qc_mask`: every entry when PRES_QC is 7 throughout, otherwise PRES_QC at most 2
      (a 7 among other flags is then rejected). */
  function PresQcMask(q: seq<seq<int>>): (m: seq<seq<bool>>)
    ensures |m| == |q| && forall j :: 0 <= j < |q| ==> |m[j]| == |q[j]|
    ensures forall j, d :: 0 <= j < |q| && 0 <= d < |q[j]| ==> (m[j][d] <==> AllSeven(q) || q[j][d] <= 2)
  {
    if AllSeven(q) then LevelMask(q, _ => true) else LevelMask(q, f => f <= 2)
  }

  /** `np.ma.masked_where(invert(good), m)`. */
  function MaskWhere<T>(m: seq<seq<Option<T>>>, good: seq<seq<bool>>): (r: seq<seq<Option<T>>>)
    requires |good| == |m| && forall j :: 0 <= j < |m| ==> |good[j]| == |m[j]|
    ensures |r| == |m| && forall j :: 0 <= j < |m| ==> |r[j]| == |m[j]|
    ensures forall j, d :: 0 <= j < |m| && 0 <= d < |m[j]| ==> r[j][d] == (if good[j][d] then m[j][d] else None)
  {
    seq(|m|, j requires 0 <= j < |m| =>
      seq(|m[j]|, d requires 0 <= d < |m[j]| => if good[j][d] then m[j][d] else None))
  }

  /** A mask applied only when it is present. */
  function MaskIf<T>(m: seq<seq<Option<T>>>, good: Option<seq<seq<bool>>>): (r: seq<seq<Option<T>>>)
    requires good.Some? ==> |good.value| == |m| && forall j :: 0 <= j < |m| ==> |good.value[j]| == |m[j]|
    ensures |r| == |m| && forall j :: 0 <= j < |m| ==> |r[j]| == |m[j]|
    ensures forall j, d :: 0 <= j < |m| && 0 <= d < |m[j]| ==>
      r[j][d] == (if good.None? || good.value[j][d] then m[j][d] else None)
  {
    if good.None? then m else MaskWhere(m, good.value)
  }

  /** Some entry of the array is unmasked (`not mask.all()`). */
  predicate AnyData<T>(m: seq<seq<Option<T>>>) {
    exists j, d :: 0 <= j < |m| && 0 <= d < |m[j]| && m[j][d].Some?
  }

  // ---------------------------------------------------------------- selected records

  /** The record filter (`good_time_mask`) and the date cut over the records it keeps
      (`out_time_mask`). */
  datatype Selection = Selection(good: seq<bool>, cut: seq<bool>)

  predicate Fits(sel: Selection, n: nat) {
    |sel.good| == n && |sel.cut| == CountTrue(sel.good)
  }

  /** The QC filter and the date cut; no record left inside the cut is an error. */
  function SelectTimes(s: Source, first: Option<int>, last: Option<int>): (r: Result<Selection>)
    requires WellFormed(s)
    ensures r.Ok? <==> GoodMask(s).Ok? && CountTrue(CutMask(Select(s.times, GoodMask(s).value), first, last)) > 0
    ensures r.Ok? ==> Fits(r.value, |s.times|) && CountTrue(r.value.cut) > 0
    ensures r.Ok? ==> r.value.good == GoodMask(s).value && r.value.cut == CutMask(Select(s.times, r.value.good), first, last)
  {
    var goodMask := GoodMask(s);
    if goodMask.Err? then Err(goodMask.reason)
    else
      var cut := CutMask(Select(s.times, goodMask.value), first, last);
      SelectSize(s.times, goodMask.value);
      if CountTrue(cut) == 0 then Err("no data in the selected period for this variable")
      else Ok(Selection(goodMask.value, cut))
  }

  lemma {:induction false} PickRect<T>(m: seq<seq<T>>, sel: Selection, n: nat, l: nat)
    requires Rect(m, n, l) && Fits(sel, n)
    ensures Rect(Pick(m, sel.good, sel.cut), CountTrue(sel.cut), l)
  {
    SelectSize(m, sel.good);
    SelectIn(m, sel.good);
    SelectIn(Select(m, sel.good), sel.cut);
    SelectSize(Select(m, sel.good), sel.cut);
    var p := Pick(m, sel.good, sel.cut);
    forall j | 0 <= j < |p| ensures |p[j]| == l {
      assert p[j] in Select(m, sel.good);
    }
  }

  /** The selected records of a records-by-levels array. */
  function PickRows<T>(m: seq<seq<T>>, sel: Selection, n: nat, l: nat): (r: seq<seq<T>>)
    requires Rect(m, n, l) && Fits(sel, n)
    ensures Rect(r, CountTrue(sel.cut), l)
  {
    PickRect(m, sel, n, l);
    Pick(m, sel.good, sel.cut)
  }

  /** `in_depth_qc_mask` over the selected records, present when the file has both depth and
      DEPH_QC. */
  function DepthMask(s: Source, sel: Selection): (m: Option<seq<seq<bool>>>)
    requires WellFormed(s) && Fits(sel, |s.times|)
    ensures m.Some? <==> s.depth.Some? && s.depthQc.Some?
    ensures m.Some? ==> Rect(m.value, CountTrue(sel.cut), s.levels)
  {
    if s.depth.Some? && s.depthQc.Some? then Some(DepthQcMask(PickRows(s.depthQc.value, sel, |s.times|, s.levels)))
    else None
  }

  /** `in_pres_qc_mask` over the selected records, present when the file has both pressure and
      PRES_QC. */
  function PresMask(s: Source, sel: Selection): (m: Option<seq<seq<bool>>>)
    requires WellFormed(s) && Fits(sel, |s.times|)
    ensures m.Some? <==> s.pres.Some? && s.presQc.Some?
    ensures m.Some? ==> Rect(m.value, CountTrue(sel.cut), s.levels)
  {
    if s.pres.Some? && s.presQc.Some? then Some(PresQcMask(PickRows(s.presQc.value, sel, |s.times|, s.levels)))
    else None
  }

  /** The variable over the selected records, masked by the depth QC and the pressure QC. */
  function MaskedValues(s: Source, sel: Selection): (v: seq<seq<Option<real>>>)
    requires WellFormed(s) && Fits(sel, |s.times|)
    ensures Rect(v, CountTrue(sel.cut), s.levels)
    ensures forall j, d :: 0 <= j < |v| && 0 <= d < |v[j]| ==>
      (v[j][d].Some? <==>
        (PickRows(s.values, sel, |s.times|, s.levels)[j][d].Some? &&
         (DepthMask(s, sel).None? || DepthMask(s, sel).value[j][d]) &&
         (PresMask(s, sel).None? || PresMask(s, sel).value[j][d])))
  {
    MaskIf(MaskIf(PickRows(s.values, sel, |s.times|, s.levels), DepthMask(s, sel)), PresMask(s, sel))
  }

  /** The variable QC over the selected records: read when present and masked by the depth QC,
      every entry 1 (and unmasked) otherwise. */
  function VariableQc(s: Source, sel: Selection): (q: seq<seq<Option<int>>>)
    requires WellFormed(s) && Fits(sel, |s.times|)
    ensures Rect(q, CountTrue(sel.cut), s.levels)
    ensures s.qc.None? ==> forall j, d :: 0 <= j < |q| && 0 <= d < |q[j]| ==> q[j][d] == Some(1)
  {
    if s.qc.None? then seq(CountTrue(sel.cut), _ => seq(s.levels, _ => Some(1)))
    else MaskIf(PickRows(s.qc.value, sel, |s.times|, s.levels), DepthMask(s, sel))
  }

  /** The records that pass the QC filter and the date cut, their levels masked by the depth
      and pressure QC. */
  datatype Records = Records(
    times: seq<int>, lon: seq<real>, lat: seq<real>,
    values: seq<seq<Option<real>>>, qc: seq<seq<Option<int>>>,
    depth: Option<seq<seq<Option<real>>>>, pres: Option<seq<seq<Option<real>>>>, levels: nat)

  predicate Shaped(r: Records) {
    var n, l := |r.times|, r.levels;
    |r.lon| == n && |r.lat| == n && Rect(r.values, n, l) && Rect(r.qc, n, l) &&
    (r.depth.Some? ==> Rect(r.depth.value, n, l)) && (r.pres.Some? ==> Rect(r.pres.value, n, l))
  }

  /** A per-record array over the selected records. */
  function PickRecords<T>(a: seq<T>, sel: Selection): (r: seq<T>)
    requires Fits(sel, |a|)
    ensures |r| == CountTrue(sel.cut)
  {
    SelectSize(a, sel.good);
    SelectSize(Select(a, sel.good), sel.cut);
    Pick(a, sel.good, sel.cut)
  }

  /** The selected records, built once every check has passed. */
  function Assemble(s: Source, sel: Selection, lon: seq<real>, lat: seq<real>): (r: Records)
    requires WellFormed(s) && Fits(sel, |s.times|) && |lon| == |s.times| && |lat| == |s.times|
    ensures Shaped(r) && r.levels == s.levels && r.values == MaskedValues(s, sel)
    ensures r.times == PickRecords(s.times, sel)
    ensures (s.depth.Some? <==> r.depth.Some?) && (s.pres.Some? <==> r.pres.Some?)
  {
    var n := |s.times|;
    var depth := if s.depth.Some? then Some(MaskIf(PickRows(s.depth.value, sel, n, s.levels), DepthMask(s, sel))) else None;
    var pres := if s.pres.Some? then Some(MaskIf(PickRows(s.pres.value, sel, n, s.levels), PresMask(s, sel))) else None;
    Records(PickRecords(s.times, sel), PickRecords(lon, sel), PickRecords(lat, sel),
            MaskedValues(s, sel), VariableQc(s, sel), depth, pres, s.levels)
  }

  /** Everything up to the removal of empty records and levels, with the source's exits in its
      order: position QC size, empty date cut, longitude size, latitude size, the `PRRD`
      variable and a variable with no unmasked value left. */
  function SelectRecords(s: Source, first: Option<int>, last: Option<int>): (r: Result<Records>)
    requires WellFormed(s)
    ensures r.Ok? <==>
      (SelectTimes(s, first, last).Ok? && Spread(s.lon, |s.times|).Ok? && Spread(s.lat, |s.times|).Ok? &&
       s.name != "PRRD" && AnyData(MaskedValues(s, SelectTimes(s, first, last).value)))
    ensures r.Ok? ==> Shaped(r.value) && r.value.levels == s.levels && AnyData(r.value.values)
    ensures r.Ok? ==> r.value.times == PickRecords(s.times, SelectTimes(s, first, last).value)
    ensures r.Ok? ==> r.value.values == MaskedValues(s, SelectTimes(s, first, last).value)
    ensures r.Ok? ==> (s.depth.Some? <==> r.value.depth.Some?) && (s.pres.Some? <==> r.value.pres.Some?)
  {
    var sel := SelectTimes(s, first, last);
    if sel.Err? then Err(sel.reason)
    else
      var lon, lat := Spread(s.lon, |s.times|), Spread(s.lat, |s.times|);
      if lon.Err? then Err(lon.reason)
      else if lat.Err? then Err(lat.reason)
      else if s.name == "PRRD" then Err("hourly and daily precipitation rates share a standard name")
      else if !AnyData(MaskedValues(s, sel.value)) then Err("all data is missing in this variable")
      else Ok(Assemble(s, sel.value, lon.value, lat.value))
  }

  /** Every selected record's time lies inside the date cut. */
  lemma {:induction false} CutTimesInWindow(times: seq<int>, first: Option<int>, last: Option<int>)
    ensures forall t :: t in Select(times, CutMask(times, first, last)) ==> InCut(t, first, last)
  {
    if times != [] {
      var init := times[..|times| - 1];
      assert CutMask(times, first, last)[..|times| - 1] == CutMask(init, first, last);
      CutTimesInWindow(init, first, last);
    }
  }

  /** The selected times are inside the date cut. */
  lemma {:induction false} SelectedTimesInWindow(s: Source, first: Option<int>, last: Option<int>)
    requires WellFormed(s) && SelectRecords(s, first, last).Ok?
    ensures forall t :: t in SelectRecords(s, first, last).value.times ==> InCut(t, first, last)
  {
    var good := GoodMask(s).value;
    SelectSize(s.times, good);
    CutTimesInWindow(Select(s.times, good), first, last);
  }

  /** The size checks refuse a position QC, longitude or latitude that neither has one entry per
      record nor a single one, and an empty file gives no output. */
  lemma {:induction false} SelectRecordsRefuses(s: Source, first: Option<int>, last: Option<int>)
    requires WellFormed(s)
    ensures s.positionQc.Some? && |s.positionQc.value| != |s.times| && |s.positionQc.value| != 1 ==>
      SelectRecords(s, first, last).Err?
    ensures |s.lon| != |s.times| && |s.lon| != 1 ==> SelectRecords(s, first, last).Err?
    ensures |s.lat| != |s.times| && |s.lat| != 1 ==> SelectRecords(s, first, last).Err?
    ensures s.times == [] ==> SelectRecords(s, first, last).Err?
  {
    if s.times == [] && GoodMask(s).Ok? {
      SelectSize(s.times, GoodMask(s).value);
    }
  }

  /** With no time QC and no position QC every record passes the QC filter. */
  lemma {:induction false} NoQcKeepsEveryRecord(s: Source)
    requires WellFormed(s) && s.timeQc.None? && s.positionQc.None?
    ensures GoodMask(s).Ok? && forall j :: 0 <= j < |s.times| ==> GoodMask(s).value[j]
    ensures Select(s.times, GoodMask(s).value) == s.times
  {
    SelectAll(s.times, GoodMask(s).value);
  }

  /** A record passes the QC filter iff its TIME_QC is at most 2 and its POSITION_QC, 7 counting
      as 2, is at most 2. */
  lemma {:induction false} GoodRecord(s: Source, j: nat)
    requires WellFormed(s) && j < |s.times| && s.timeQc.Some? && s.positionQc.Some?
    requires |s.positionQc.value| == |s.times|
    ensures GoodMask(s).Ok?
    ensures GoodMask(s).value[j] <==> s.timeQc.value[j] <= 2 && (s.positionQc.value[j] == 7 || s.positionQc.value[j] <= 2)
  {
  }

  /** A single POSITION_QC flag decides for every record. */
  lemma {:induction false} SinglePositionFlag(s: Source, j: nat)
    requires WellFormed(s) && j < |s.times| && s.timeQc.None? && s.positionQc.Some?
    requires |s.positionQc.value| == 1
    ensures GoodMask(s).Ok?
    ensures GoodMask(s).value[j] <==> Nominal(s.positionQc.value[0]) <= 2
  {
  }

  /** A 7 among other pressure flags rejects its entry, while a pressure QC made only of 7s
      keeps every entry. */
  lemma {:induction false} PresSevenRejectedUnlessUniform(q: seq<seq<int>>, j: nat, d: nat, k: nat, e: nat)
    requires j < |q| && d < |q[j]| && k < |q| && e < |q[k]|
    requires q[j][d] == 7 && q[k][e] == 1
    ensures !PresQcMask(q)[j][d]
  {
  }

  lemma {:induction false} PresAllSevenKept(q: seq<seq<int>>, j: nat, d: nat)
    requires j < |q| && d < |q[j]| && AllSeven(q)
    ensures PresQcMask(q)[j][d]
  {
  }

  // ---------------------------------------------------------------- empty records and levels

  /** A record with some unmasked level (`np.ma.sum` along the levels is not masked). */
  function NotEmptyMask(m: seq<seq<Option<real>>>): (b: seq<bool>)
    ensures |b| == |m| && forall j :: 0 <= j < |m| ==> (b[j] <==> CountValid(m[j]) > 0)
  {
    seq(|m|, j requires 0 <= j < |m| => CountValid(m[j]) > 0)
  }

  /** Level `d` holds some unmasked value. */
  predicate LevelHasData(m: seq<seq<Option<real>>>, d: nat) {
    exists j :: 0 <= j < |m| && d < |m[j]| && m[j][d].Some?
  }

  /** Level `d` of every record. */
  function Column<T>(m: seq<seq<T>>, d: nat): (c: seq<T>)
    requires forall j :: 0 <= j < |m| ==> d < |m[j]|
    ensures |c| == |m| && forall j :: 0 <= j < |m| ==> c[j] == m[j][d]
  {
    seq(|m|, j requires 0 <= j < |m| => m[j][d])
  }

  /** Levels `kept` of every record, level by level. */
  function Columns<T>(m: seq<seq<T>>, kept: seq<nat>, l: nat): (c: seq<seq<T>>)
    requires Rect(m, |m|, l) && forall k :: 0 <= k < |kept| ==> kept[k] < l
    ensures |c| == |kept| && forall k :: 0 <= k < |kept| ==> c[k] == Column(m, kept[k])
  {
    seq(|kept|, k requires 0 <= k < |kept| => Column(m, kept[k]))
  }

  lemma {:induction false} CountedLevel(m: seq<seq<Option<real>>>, d: nat, l: nat)
    requires Rect(m, |m|, l) && d < l
    ensures CountValid(Column(m, d)) > 0 <==> LevelHasData(m, d)
  {
    var c := Column(m, d);
    if CountValid(c) > 0 {
      var j :| 0 <= j < |c| && c[j].Some?;
      assert m[j][d].Some?;
    }
  }

  /** The output: the non-empty records and, level by level, the levels holding data. */
  datatype Extracted = Extracted(
    times: seq<int>, lon: seq<real>, lat: seq<real>, kept: seq<nat>,
    values: seq<seq<Option<real>>>, qc: seq<seq<Option<int>>>,
    depth: Option<seq<seq<Option<real>>>>, pres: Option<seq<seq<Option<real>>>>)

  /** The levels an extraction keeps: increasing, below `l`, and exactly those holding data. */
  ghost predicate KeptLevels(m: seq<seq<Option<real>>>, kept: seq<nat>, l: nat) {
    (forall i, j :: 0 <= i < j < |kept| ==> kept[i] < kept[j]) &&
    (forall k :: 0 <= k < |kept| ==> kept[k] < l) &&
    (forall d: nat :: d in kept <==> d < l && LevelHasData(m, d))
  }

  /** The `for depth` loop: each level of the non-empty records holding some unmasked value is
      appended to the value, QC, depth and pressure outputs. */
  method AppendLevels(values: seq<seq<Option<real>>>, qc: seq<seq<Option<int>>>,
                      depth: Option<seq<seq<Option<real>>>>, pres: Option<seq<seq<Option<real>>>>, levels: nat)
    returns (kept: seq<nat>, outValues: seq<seq<Option<real>>>, outQc: seq<seq<Option<int>>>,
             outDepth: Option<seq<seq<Option<real>>>>, outPres: Option<seq<seq<Option<real>>>>)
    requires Rect(values, |values|, levels) && Rect(qc, |values|, levels)
    requires depth.Some? ==> Rect(depth.value, |values|, levels)
    requires pres.Some? ==> Rect(pres.value, |values|, levels)
    ensures KeptLevels(values, kept, levels)
    ensures outValues == Columns(values, kept, levels) && outQc == Columns(qc, kept, levels)
    ensures outDepth.Some? <==> depth.Some?
    ensures depth.Some? ==> outDepth.value == Columns(depth.value, kept, levels)
    ensures outPres.Some? <==> pres.Some?
    ensures pres.Some? ==> outPres.value == Columns(pres.value, kept, levels)
  {
    kept, outValues, outQc := [], [], [];
    var depthCols: seq<seq<Option<real>>> := [];
    var presCols: seq<seq<Option<real>>> := [];
    for d := 0 to levels
      invariant forall i, j :: 0 <= i < j < |kept| ==> kept[i] < kept[j]
      invariant forall k :: 0 <= k < |kept| ==> kept[k] < d
      invariant forall e: nat :: e in kept <==> e < d && LevelHasData(values, e)
      invariant outValues == Columns(values, kept, levels) && outQc == Columns(qc, kept, levels)
      invariant depth.Some? ==> depthCols == Columns(depth.value, kept, levels)
      invariant pres.Some? ==> presCols == Columns(pres.value, kept, levels)
    {
      var slice := Column(values, d);
      CountedLevel(values, d, levels);
      if CountValid(slice) == 0 {
        continue;
      }
      kept := kept + [d];
      outValues := outValues + [slice];
      outQc := outQc + [Column(qc, d)];
      if depth.Some? {
        depthCols := depthCols + [Column(depth.value, d)];
      }
      if pres.Some? {
        presCols := presCols + [Column(pres.value, d)];
      }
    }
    outDepth := if depth.Some? then Some(depthCols) else None;
    outPres := if pres.Some? then Some(presCols) else None;
  }

  lemma {:induction false} RowsRect<T>(m: seq<seq<T>>, mask: seq<bool>, l: nat)
    requires Rect(m, |m|, l) && |mask| == |m|
    ensures Rect(Select(m, mask), CountTrue(mask), l)
  {
    SelectSize(m, mask);
    SelectIn(m, mask);
    var p := Select(m, mask);
    forall j | 0 <= j < |p| ensures |p[j]| == l {
      assert p[j] in m;
    }
  }

  /** The removal of empty records, then of empty levels; the output arrays are stored level by
      level. */
  method RemoveEmpty(r: Records) returns (e: Result<Extracted>)
    requires Shaped(r)
    ensures e.Ok? <==> CountTrue(NotEmptyMask(r.values)) > 0
    ensures e.Ok? ==> var ne := NotEmptyMask(r.values);
      e.value.times == Select(r.times, ne) && e.value.lon == Select(r.lon, ne) && e.value.lat == Select(r.lat, ne)
    ensures e.Ok? ==> var rows := Select(r.values, NotEmptyMask(r.values));
      KeptLevels(rows, e.value.kept, r.levels) && Rect(rows, |rows|, r.levels) &&
      e.value.values == Columns(rows, e.value.kept, r.levels)
    ensures e.Ok? ==> (e.value.depth.Some? <==> r.depth.Some?) && (e.value.pres.Some? <==> r.pres.Some?)
  {
    var ne := NotEmptyMask(r.values);
    if CountTrue(ne) == 0 {
      return Err("no data for the variable in the selected period");
    }
    var rows := Select(r.values, ne);
    RowsRect(r.values, ne, r.levels);
    RowsRect(r.qc, ne, r.levels);
    var depth := None;
    if r.depth.Some? {
      RowsRect(r.depth.value, ne, r.levels);
      depth := Some(Select(r.depth.value, ne));
    }
    var pres := None;
    if r.pres.Some? {
      RowsRect(r.pres.value, ne, r.levels);
      pres := Some(Select(r.pres.value, ne));
    }
    var kept, values, qc, outDepth, outPres := AppendLevels(rows, Select(r.qc, ne), depth, pres, r.levels);
    e := Ok(Extracted(Select(r.times, ne), Select(r.lon, ne), Select(r.lat, ne), kept, values, qc, outDepth, outPres));
  }

  /** Once some value survived the QC masks, some record is non-empty: the second "no data"
      exit is never taken. */
  lemma {:induction false} NotEmptyAfterAnyData(m: seq<seq<Option<real>>>)
    requires AnyData(m)
    ensures CountTrue(NotEmptyMask(m)) > 0
  {
    var j, d :| 0 <= j < |m| && 0 <= d < |m[j]| && m[j][d].Some?;
    assert NotEmptyMask(m)[j];
  }

  /** The whole extraction: it fails exactly when the record selection does or when the file
      has neither depth nor pressure (from which the output depth is computed). */
  method Extract(s: Source, first: Option<int>, last: Option<int>) returns (e: Result<Extracted>)
    requires WellFormed(s)
    ensures e.Ok? <==> SelectRecords(s, first, last).Ok? && (s.depth.Some? || s.pres.Some?)
    ensures e.Ok? ==> var r := SelectRecords(s, first, last).value; var ne := NotEmptyMask(r.values);
      e.value.times == Select(r.times, ne) && KeptLevels(Select(r.values, ne), e.value.kept, s.levels)
  {
    var selected := SelectRecords(s, first, last);
    if selected.Err? {
      return Err(selected.reason);
    }
    if s.depth.None? && s.pres.None? {
      return Err("neither depth nor pressure in the file");
    }
    NotEmptyAfterAnyData(selected.value.values);
    e := RemoveEmpty(selected.value);
  }
}
