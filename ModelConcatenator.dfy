/** The concatenation of daily or hourly model datasets into one time series per observation
    location: model times on the 600 s grid, the record type check, the aggregation of the
    records at the nearest sea point of every location that is close enough to the model grid,
    and the placement of the sorted records on a regular output time grid. */
module ModelConcatenator {
  import opened Wrappers
  import opened Series
  import opened Sorting
  import opened Placement
  import Numerics
  import Steps

  // ---------------------------------------------------------------- model times

  datatype TimeUnits = Days | Seconds | OtherUnits

  /** One model time in seconds since 1970: rounded to whole seconds in its own units, shifted
      by the dataset's reference and rounded to the nearest multiple of 600 s. */
  function ModelTime(t: real, units: TimeUnits, reference: int): (r: int)
    requires !units.OtherUnits?
    ensures r % 600 == 0
    ensures units.Days? ==> t * 86400.0 + reference as real - 300.5 <= r as real <= t * 86400.0 + reference as real + 300.5
    ensures units.Seconds? ==> t + reference as real - 300.5 <= r as real <= t + reference as real + 300.5
  {
    var seconds := if units.Days? then Numerics.DaysToSeconds(t) else Numerics.RoundHalfEven(t);
    Numerics.RoundTo600(seconds + reference)
  }

  /** Whole days since a reference on the 600 s grid convert exactly. */
  lemma {:induction false} ModelTimeOfWholeDays(n: int, reference: int)
    requires reference % 600 == 0
    ensures ModelTime(n as real, Days, reference) == n * 86400 + reference
  {
    Numerics.DaysToSecondsOfWholeDays(n);
    assert (n * 86400 + reference) % 600 == 0 by {
      assert n * 86400 == (n * 144) * 600;
    }
  }

  /** The time axis of a dataset; only days and seconds are understood. */
  function ModelTimes(raw: seq<real>, units: TimeUnits, reference: int): (r: Result<seq<int>>)
    ensures r.Err? <==> units.OtherUnits?
    ensures r.Ok? ==> |r.value| == |raw| && forall k :: 0 <= k < |raw| ==> r.value[k] == ModelTime(raw[k], units, reference)
  {
    if units.OtherUnits? then Err("unknown time units")
    else Ok(seq(|raw|, k requires 0 <= k < |raw| => ModelTime(raw[k], units, reference)))
  }

  // ---------------------------------------------------------------- record type

  datatype RecordType = DM | HM

  /** One record is a daily mean and 24 records are hourly means; any other count keeps the
      type of the datasets before (and fails on the first dataset, where the name is still
      unbound). A type differing from the earlier datasets' stops the run. */
  function RecordTypeOf(count: nat, saved: Option<RecordType>): (r: Result<RecordType>)
    ensures saved.Some? && r.Ok? ==> r.value == saved.value
    ensures count == 1 ==> (r.Ok? <==> saved != Some(HM)) && (r.Ok? ==> r.value == DM)
    ensures count == 24 ==> (r.Ok? <==> saved != Some(DM)) && (r.Ok? ==> r.value == HM)
    ensures count != 1 && count != 24 ==> (r.Ok? <==> saved.Some?)
  {
    if count == 1 then (if saved.Some? && saved.value.HM? then Err("mixed record types") else Ok(DM))
    else if count == 24 then (if saved.Some? && saved.value.DM? then Err("mixed record types") else Ok(HM))
    else if saved.None? then Err("NameError")
    else Ok(saved.value)
  }

  // ---------------------------------------------------------------- one dataset

  /** A model dataset as the loop sees it. `distance[l]` is the distance in km from location
      `l` to the nearest sea point of the grid (`None` for `nan`), and `cut[l]` the records at
      that point (record by depth). */
  datatype ModelDataset = ModelDataset(rawTimes: seq<real>, units: TimeUnits, reference: int,
                                       hasVariable: bool, isFp: bool, masked: bool, meshShapeMatches: bool,
                                       distance: seq<Option<real>>, cut: seq<Matrix>)

  predicate WellFormed(d: ModelDataset, locations: nat, depths: nat) {
    |d.distance| == locations && |d.cut| == locations &&
    forall l :: 0 <= l < locations ==> |d.cut[l]| == |d.rawTimes| && forall i :: 0 <= i < |d.cut[l]| ==> |d.cut[l][i]| == depths
  }

  datatype Screened = Outside | Use(times: seq<int>, recordType: RecordType)

  /** The checks before the variable is read: the time axis, the selected period (a dataset
      ending before the first date or starting at or after the last one is skipped; struct
      times compare their daylight flag last, and `gmtime` gives 0 where `strptime` gives -1),
      at most one zero time, and the record type. */
  function Screen(saved: Option<RecordType>, d: ModelDataset, first: Option<int>, last: Option<int>): (r: Result<Screened>)
    ensures r.Ok? && r.value.Use? ==> |r.value.times| == |d.rawTimes| && Steps.Count(r.value.times, 0) <= 1
    ensures r.Ok? && r.value.Use? && saved.Some? ==> r.value.recordType == saved.value
    ensures r.Ok? && r.value.Use? && first.Some? ==> r.value.times != [] && r.value.times[|r.value.times| - 1] >= first.value
    ensures r.Ok? && r.value.Use? && last.Some? ==> r.value.times != [] && r.value.times[0] < last.value
  {
    var t := ModelTimes(d.rawTimes, d.units, d.reference);
    if t.Err? then Err(t.reason)
    else if (first.Some? || last.Some?) && t.value == [] then Err("IndexError")
    else if first.Some? && t.value[|t.value| - 1] < first.value then Ok(Outside)
    else if last.Some? && t.value[0] >= last.value then Ok(Outside)
    else if Steps.Count(t.value, 0) > 1 then Err("zero times")
    else
      var rt := RecordTypeOf(|t.value|, saved);
      if rt.Err? then Err(rt.reason) else Ok(Use(t.value, rt.value))
  }

  /** The wave peak frequency becomes a period, `1 / fp`; numpy's masked division masks a
      zero divisor. */
  function Invert(x: Option<real>): (r: Option<real>)
    ensures r.None? <==> x.None? || x.value == 0.0
    ensures r.Some? ==> r.value * x.value == 1.0
  {
    if x.None? || x.value == 0.0 then None else Some(1.0 / x.value)
  }

  /** Inverting twice gives the value back. */
  lemma {:induction false} InvertTwice(x: Option<real>)
    requires x != Some(0.0)
    ensures Invert(Invert(x)) == x
  {
    if x.Some? {
      assert 1.0 / (1.0 / x.value) == x.value;
    }
  }

  function InvertAll(m: Matrix): (r: Matrix)
    ensures |r| == |m| && forall i :: 0 <= i < |m| ==> |r[i]| == |m[i]| && forall j :: 0 <= j < |m[i]| ==> r[i][j] == Invert(m[i][j])
  {
    seq(|m|, i requires 0 <= i < |m| => seq(|m[i]|, j requires 0 <= j < |m[i]| => Invert(m[i][j])))
  }

  /** The records each location takes from a dataset. */
  function Cuts(d: ModelDataset): (r: seq<Matrix>)
    ensures |r| == |d.cut| && forall l :: 0 <= l < |d.cut| ==> |r[l]| == |d.cut[l]| && forall i :: 0 <= i < |d.cut[l]| ==> |r[l][i]| == |d.cut[l][i]|
  {
    if d.isFp then seq(|d.cut|, l requires 0 <= l < |d.cut| => InvertAll(d.cut[l])) else d.cut
  }

  // ---------------------------------------------------------------- locations

  /** What the loop has gathered: the times of the kept datasets, the locations rejected for
      distance, the records of every accepted location, the distance switch of the last new
      location and the record type. */
  datatype Aggregate = Aggregate(times: seq<int>, rejected: seq<nat>, rows: map<nat, Matrix>,
                                 switch: bool, saved: Option<RecordType>)

  const Initial: Aggregate := Aggregate([], [], map[], false, None)

  /** No sea point within the distance threshold (or none at all). */
  predicate Far(distance: Option<real>, threshold: real) {
    distance.None? || distance.value > threshold
  }

  /** A masked array of the shape of `m`. */
  function MaskedLike(m: Matrix): (r: Matrix)
    ensures |r| == |m| && forall i :: 0 <= i < |m| ==> |r[i]| == |m[i]| && forall j :: 0 <= j < |m[i]| ==> r[i][j].None?
  {
    seq(|m|, i requires 0 <= i < |m| => seq(|m[i]|, j => None))
  }

  /** One location of one dataset, as written: a known location appends masked records when
      the switch left by the last new location is set. */
  function VisitLocationAsWritten(g: Aggregate, cut: Matrix, distance: Option<real>, l: nat, threshold: real): (r: Aggregate)
    ensures l in g.rows ==> l in r.rows
    ensures l in g.rows && l !in g.rejected ==> r.rows[l] == g.rows[l] + (if g.switch then MaskedLike(cut) else cut)
  {
    if l in g.rejected then g
    else if l !in g.rows then
      if Far(distance, threshold) then g.(rejected := g.rejected + [l], switch := true)
      else g.(rows := g.rows[l := cut], switch := false)
    else g.(rows := g.rows[l := g.rows[l] + (if g.switch then MaskedLike(cut) else cut)])
  }

  /** One location of one dataset, as intended: a rejected location is passed over, a new
      one is rejected when far from the grid and accepted with its records otherwise, and a
      known one appends its records. */
  function VisitLocation(g: Aggregate, cut: Matrix, distance: Option<real>, l: nat, threshold: real): (r: Aggregate)
    ensures r.times == g.times && r.saved == g.saved
    ensures l in g.rejected ==> r == g
    ensures l !in g.rejected && l in g.rows ==> r.rows == g.rows[l := g.rows[l] + cut] && r.rejected == g.rejected
    ensures l !in g.rejected && l !in g.rows && Far(distance, threshold) ==>
      r.rejected == g.rejected + [l] && r.rows == g.rows && r.switch
    ensures l !in g.rejected && l !in g.rows && !Far(distance, threshold) ==>
      r.rejected == g.rejected && r.rows == g.rows[l := cut] && !r.switch
  {
    if l in g.rejected then g
    else if l !in g.rows then
      if Far(distance, threshold) then g.(rejected := g.rejected + [l], switch := true)
      else g.(rows := g.rows[l := cut], switch := false)
    else g.(rows := g.rows[l := g.rows[l] + cut])
  }

  /** After the known location's records of a later dataset the two differ exactly when a
      switch is left set: the written loop then stores masked records in place of data. */
  lemma {:induction false} StaleSwitchMasks(g: Aggregate, cut: Matrix, distance: Option<real>, l: nat, threshold: real)
    requires l in g.rows && l !in g.rejected && g.switch
    ensures VisitLocationAsWritten(g, cut, distance, l, threshold).rows[l] == g.rows[l] + MaskedLike(cut)
    ensures VisitLocation(g, cut, distance, l, threshold).rows[l] == g.rows[l] + cut
  {
  }

  /** Locations `0 .. n - 1` of one dataset in order. */
  function VisitLocations(g: Aggregate, cuts: seq<Matrix>, distance: seq<Option<real>>, n: nat, threshold: real): (r: Aggregate)
    requires n <= |cuts| && n <= |distance|
    ensures r.times == g.times && r.saved == g.saved
  {
    if n == 0 then g
    else VisitLocation(VisitLocations(g, cuts, distance, n - 1, threshold), cuts[n - 1], distance[n - 1], n - 1, threshold)
  }

  /** When the last location is new and far from the grid, the loop over a dataset ends with
      the switch set; every known location of every later dataset then meets the stale
      switch. */
  lemma {:induction false} SwitchAfterRejectedLast(g: Aggregate, cuts: seq<Matrix>, distance: seq<Option<real>>, n: nat, threshold: real)
    requires 0 < n <= |cuts| && n <= |distance|
    requires var h := VisitLocations(g, cuts, distance, n - 1, threshold); n - 1 !in h.rejected && n - 1 !in h.rows
    requires Far(distance[n - 1], threshold)
    ensures VisitLocations(g, cuts, distance, n, threshold).switch
  {
  }

  // ---------------------------------------------------------------- consistency

  /** Every accepted location is below `locations`, has one record per kept time and is not
      rejected; once any location was visited, all were. */
  predicate Consistent(g: Aggregate, locations: nat) {
    Separated(g, locations) &&
    (forall l :: l in g.rows ==> |g.rows[l]| == |g.times|) &&
    (g.times != [] || g.rows != map[] || g.rejected != [] ==>
      forall l :: 0 <= l < locations ==> l in g.rows || l in g.rejected)
  }

  /** Visiting locations only adds rejections and accepted locations. */
  lemma {:induction false} VisitMonotone(g: Aggregate, cuts: seq<Matrix>, distance: seq<Option<real>>, n: nat, threshold: real)
    requires n <= |cuts| && n <= |distance|
    ensures g.rejected <= VisitLocations(g, cuts, distance, n, threshold).rejected
    ensures forall l :: l in g.rows ==> l in VisitLocations(g, cuts, distance, n, threshold).rows
  {
    if n > 0 {
      VisitMonotone(g, cuts, distance, n - 1, threshold);
    }
  }

  /** Every known, not rejected location among the visited ones appends its records; the
      others keep theirs. */
  lemma {:induction false} VisitAppends(g: Aggregate, cuts: seq<Matrix>, distance: seq<Option<real>>, n: nat, threshold: real)
    requires n <= |cuts| && n <= |distance|
    ensures var r := VisitLocations(g, cuts, distance, n, threshold);
      forall l :: l in g.rows && l !in g.rejected ==> l in r.rows && l !in r.rejected && r.rows[l] == if l < n then g.rows[l] + cuts[l] else g.rows[l]
  {
    if n > 0 {
      VisitAppends(g, cuts, distance, n - 1, threshold);
      var h := VisitLocations(g, cuts, distance, n - 1, threshold);
      var r := VisitLocations(g, cuts, distance, n, threshold);
      forall l | l in g.rows && l !in g.rejected
        ensures l in r.rows && l !in r.rejected && r.rows[l] == if l < n then g.rows[l] + cuts[l] else g.rows[l]
      {
        LocationKeeps(h, cuts[n - 1], distance[n - 1], n - 1, threshold, l);
      }
    }
  }

  /** An accepted location stays accepted through the visit of location `m`, and only
      location `m` appends records. */
  lemma {:induction false} LocationKeeps(h: Aggregate, cut: Matrix, distance: Option<real>, m: nat, threshold: real, l: nat)
    requires l in h.rows && l !in h.rejected
    ensures var r := VisitLocation(h, cut, distance, m, threshold);
      l in r.rows && l !in r.rejected && r.rows[l] == if l == m then h.rows[l] + cut else h.rows[l]
  {
    if m !in h.rejected && m !in h.rows && Far(distance, threshold) {
      assert l != m;
      assert l !in h.rejected + [m];
    }
  }

  /** Every visited location ends accepted or rejected; when every location was already
      one or the other, all stay so. */
  lemma {:induction false} VisitCovers(g: Aggregate, cuts: seq<Matrix>, distance: seq<Option<real>>, n: nat,
                                       threshold: real, locations: nat)
    requires n <= |cuts| && n <= |distance|
    ensures var r := VisitLocations(g, cuts, distance, n, threshold);
      forall l :: 0 <= l < n ==> l in r.rows || l in r.rejected
    ensures (forall l :: 0 <= l < locations ==> l in g.rows || l in g.rejected) ==>
      var r := VisitLocations(g, cuts, distance, n, threshold);
      forall l :: 0 <= l < locations ==> l in r.rows || l in r.rejected
  {
    if n > 0 {
      VisitCovers(g, cuts, distance, n - 1, threshold, locations);
      VisitMonotone(g, cuts, distance, n - 1, threshold);
      var h := VisitLocations(g, cuts, distance, n - 1, threshold);
      assert forall x :: x in g.rejected ==> x in h.rejected;
      VisitMonotone(h, cuts, distance, 0, threshold);
      assert forall x :: x in h.rejected ==> x in VisitLocation(h, cuts[n - 1], distance[n - 1], n - 1, threshold).rejected;
    }
  }

  /** Only locations below `locations` hold records, and no rejected location does. */
  predicate Separated(g: Aggregate, locations: nat) {
    (forall l :: l in g.rows ==> l < locations) &&
    (forall k :: 0 <= k < |g.rejected| ==> g.rejected[k] < locations && g.rejected[k] !in g.rows)
  }

  /** A rejected location stays without records, and only locations below `locations` are
      visited. */
  lemma {:induction false} VisitRejected(g: Aggregate, cuts: seq<Matrix>, distance: seq<Option<real>>, n: nat,
                                         threshold: real, locations: nat)
    requires Separated(g, locations)
    requires n <= locations <= |cuts| && locations <= |distance|
    ensures Separated(VisitLocations(g, cuts, distance, n, threshold), locations)
  {
    if n > 0 {
      VisitRejected(g, cuts, distance, n - 1, threshold, locations);
      var h := VisitLocations(g, cuts, distance, n - 1, threshold);
      var l := n - 1;
      var r := VisitLocation(h, cuts[l], distance[l], l, threshold);
      if l !in h.rejected && l !in h.rows && Far(distance[l], threshold) {
        assert forall k :: 0 <= k < |r.rejected| ==> r.rejected[k] == if k < |h.rejected| then h.rejected[k] else l;
      }
    }
  }

  /** Visiting the first `n` of the locations of a dataset with `m` records each, from a
      consistent aggregate: the visited accepted locations have `m` more records. */
  lemma {:induction false} VisitLengths(g: Aggregate, cuts: seq<Matrix>, distance: seq<Option<real>>, n: nat,
                                        threshold: real, locations: nat, m: nat)
    requires Consistent(g, locations)
    requires n <= locations <= |cuts| && locations <= |distance|
    requires forall l :: 0 <= l < locations ==> |cuts[l]| == m
    ensures var r := VisitLocations(g, cuts, distance, n, threshold);
      forall l :: l in r.rows ==> |r.rows[l]| == if l < n then |g.times| + m else |g.times|
  {
    if n > 0 {
      VisitLengths(g, cuts, distance, n - 1, threshold, locations, m);
      VisitRejected(g, cuts, distance, n - 1, threshold, locations);
      VisitMonotone(g, cuts, distance, n - 1, threshold);
      var h := VisitLocations(g, cuts, distance, n - 1, threshold);
      var l := n - 1;
      var r := VisitLocation(h, cuts[l], distance[l], l, threshold);
      if l in h.rejected {
        assert r == h;
      } else if l in h.rows {
        assert r.rows == h.rows[l := h.rows[l] + cuts[l]];
      } else if Far(distance[l], threshold) {
        assert r.rows == h.rows;
      } else {
        assert l !in g.rows;
        assert l !in g.rejected;
        assert g.times == [];
        assert r.rows == h.rows[l := cuts[l]];
      }
    }
  }

  /** Visiting all locations of a dataset with `m` records each keeps the aggregate
      consistent once the dataset's `m` times are added. */
  lemma {:induction false} VisitConsistent(g: Aggregate, cuts: seq<Matrix>, distance: seq<Option<real>>,
                                           threshold: real, locations: nat, times: seq<int>)
    requires Consistent(g, locations)
    requires locations <= |cuts| && locations <= |distance|
    requires forall l :: 0 <= l < locations ==> |cuts[l]| == |times|
    ensures Consistent(VisitLocations(g.(times := g.times + times), cuts, distance, locations, threshold), locations)
  {
    var g1 := g.(times := g.times + times);
    var r := VisitLocations(g1, cuts, distance, locations, threshold);
    VisitLengths(g, cuts, distance, locations, threshold, locations, |times|);
    VisitRejected(g, cuts, distance, locations, threshold, locations);
    VisitCovers(g, cuts, distance, locations, threshold, locations);
    VisitSameOnTimes(g, cuts, distance, locations, threshold, times);
  }

  /** The visits do not look at the times. */
  lemma {:induction false} VisitSameOnTimes(g: Aggregate, cuts: seq<Matrix>, distance: seq<Option<real>>, n: nat,
                                            threshold: real, times: seq<int>)
    requires n <= |cuts| && n <= |distance|
    ensures VisitLocations(g.(times := g.times + times), cuts, distance, n, threshold) ==
            VisitLocations(g, cuts, distance, n, threshold).(times := g.times + times)
  {
    if n > 0 {
      VisitSameOnTimes(g, cuts, distance, n - 1, threshold, times);
    }
  }

  /** Every record of every accepted location has one value per depth. */
  predicate Shaped(g: Aggregate, depths: nat) {
    forall l :: l in g.rows ==> forall i :: 0 <= i < |g.rows[l]| ==> |g.rows[l][i]| == depths
  }

  /** Visits with records of `depths` values keep every record at `depths` values. */
  lemma {:induction false} VisitShaped(g: Aggregate, cuts: seq<Matrix>, distance: seq<Option<real>>, n: nat,
                                       threshold: real, depths: nat)
    requires n <= |cuts| && n <= |distance|
    requires Shaped(g, depths)
    requires forall l :: 0 <= l < n ==> forall i :: 0 <= i < |cuts[l]| ==> |cuts[l][i]| == depths
    ensures Shaped(VisitLocations(g, cuts, distance, n, threshold), depths)
  {
    if n > 0 {
      VisitShaped(g, cuts, distance, n - 1, threshold, depths);
      var h := VisitLocations(g, cuts, distance, n - 1, threshold);
      var l := n - 1;
      if l !in h.rejected && l in h.rows {
        var row := h.rows[l] + cuts[l];
        assert forall i :: 0 <= i < |row| ==> row[i] == if i < |h.rows[l]| then h.rows[l][i] else cuts[l][i - |h.rows[l]|];
      }
    }
  }

  // ---------------------------------------------------------------- datasets

  /** The run's settings: whether a mesh mask file is given, the number of locations, the
      number of depths of the model, the selected period and the distance threshold in km. */
  datatype Settings = Settings(meshMask: bool, locations: nat, depths: nat,
                               first: Option<int>, last: Option<int>, threshold: real)

  /** One dataset of the loop, as intended: screened, then passed over when it lacks the
      variable or is not masked (without a mesh mask), fatal on a mask shape mismatch, and
      otherwise its times are added and every location visited. */
  function DatasetStep(g: Aggregate, d: ModelDataset, s: Settings): (r: Result<Aggregate>)
    requires WellFormed(d, s.locations, s.depths)
    ensures r.Ok? ==> g.rejected <= r.value.rejected
    ensures r.Ok? && g.saved.Some? ==> r.value.saved == g.saved
    ensures r.Ok? ==> (r.value.times == g.times ||
      (ModelTimes(d.rawTimes, d.units, d.reference).Ok? && r.value.times == g.times + ModelTimes(d.rawTimes, d.units, d.reference).value))
    ensures r.Ok? && r.value.times != g.times ==> d.hasVariable && (d.masked || s.meshMask)
    ensures r.Err? <==> Screen(g.saved, d, s.first, s.last).Err? ||
                        (Screen(g.saved, d, s.first, s.last).Ok? && Screen(g.saved, d, s.first, s.last).value.Use? && d.hasVariable && s.meshMask && !d.meshShapeMatches)
  {
    var sc := Screen(g.saved, d, s.first, s.last);
    if sc.Err? then Err(sc.reason)
    else if sc.value.Outside? then Ok(g)
    else
      var g0 := g.(saved := Some(sc.value.recordType));
      if !d.hasVariable then Ok(g0)
      else if !s.meshMask && !d.masked then Ok(g0)
      else if s.meshMask && !d.meshShapeMatches then Err("model data and mask dimension mismatch")
      else
        VisitMonotone(g0.(times := g.times + sc.value.times), Cuts(d), d.distance, s.locations, s.threshold);
        Ok(VisitLocations(g0.(times := g.times + sc.value.times), Cuts(d), d.distance, s.locations, s.threshold))
  }

  /** Locations `0 .. n - 1` of one dataset in order, as written. */
  function VisitLocationsAsWritten(g: Aggregate, cuts: seq<Matrix>, distance: seq<Option<real>>, n: nat, threshold: real): (r: Aggregate)
    requires n <= |cuts| && n <= |distance|
    ensures r.times == g.times && r.saved == g.saved
  {
    if n == 0 then g
    else VisitLocationAsWritten(VisitLocationsAsWritten(g, cuts, distance, n - 1, threshold), cuts[n - 1], distance[n - 1], n - 1, threshold)
  }

  /** One dataset of the loop, as written: the times are added before the dataset is passed
      over for being unmasked, and the locations are visited with the stale switch. */
  function DatasetStepAsWritten(g: Aggregate, d: ModelDataset, s: Settings): (r: Result<Aggregate>)
    requires WellFormed(d, s.locations, s.depths)
    ensures r.Ok? ==> (r.value.times == g.times ||
      (ModelTimes(d.rawTimes, d.units, d.reference).Ok? && r.value.times == g.times + ModelTimes(d.rawTimes, d.units, d.reference).value))
  {
    var sc := Screen(g.saved, d, s.first, s.last);
    if sc.Err? then Err(sc.reason)
    else if sc.value.Outside? then Ok(g)
    else
      var g0 := g.(saved := Some(sc.value.recordType));
      if !d.hasVariable then Ok(g0)
      else
        var g1 := g0.(times := g.times + sc.value.times);
        if !s.meshMask && !d.masked then Ok(g1)
        else if s.meshMask && !d.meshShapeMatches then Err("model data and mask dimension mismatch")
        else Ok(VisitLocationsAsWritten(g1, Cuts(d), d.distance, s.locations, s.threshold))
  }

  /** An unmasked first dataset of one daily record for one location: as written its time is
      kept without records for the location, which leaves the time axis one record longer than
      every location's records once a masked dataset follows; as intended the dataset leaves
      nothing behind. */
  lemma {:induction false} UnmaskedTimeKept()
    ensures var d := ModelDataset([1.0], Days, 0, true, false, false, true, [Some(0.0)], [[[Some(1.0)]]]);
      var s := Settings(false, 1, 1, None, None, 10.0);
      DatasetStepAsWritten(Initial, d, s) == Ok(Aggregate([86400], [], map[], false, Some(DM))) &&
      !Consistent(DatasetStepAsWritten(Initial, d, s).value, 1) &&
      DatasetStep(Initial, d, s) == Ok(Initial.(saved := Some(DM)))
  {
    var d := ModelDataset([1.0], Days, 0, true, false, false, true, [Some(0.0)], [[[Some(1.0)]]]);
    ModelTimeOfWholeDays(1, 0);
    assert ModelTimes(d.rawTimes, d.units, d.reference).value == [86400];
    assert Steps.Count([86400], 0) == 0;
    assert RecordTypeOf(1, None) == Ok(DM);
    assert Screen(None, d, None, None) == Ok(Use([86400], DM));
    assert Initial.times + [86400] == [86400];
    var w := DatasetStepAsWritten(Initial, d, Settings(false, 1, 1, None, None, 10.0));
    assert w == Ok(Aggregate([86400], [], map[], false, Some(DM)));
    assert 0 !in w.value.rows && 0 !in w.value.rejected;
  }

  /** The intended step keeps the aggregate consistent and every record at `depths` values. */
  lemma {:induction false} DatasetStepConsistent(g: Aggregate, d: ModelDataset, s: Settings)
    requires WellFormed(d, s.locations, s.depths)
    requires Consistent(g, s.locations) && Shaped(g, s.depths)
    ensures DatasetStep(g, d, s).Ok? ==> (Consistent(DatasetStep(g, d, s).value, s.locations) &&
                                          Shaped(DatasetStep(g, d, s).value, s.depths))
  {
    var sc := Screen(g.saved, d, s.first, s.last);
    if sc.Ok? && sc.value.Use? && d.hasVariable && (s.meshMask || d.masked) && !(s.meshMask && !d.meshShapeMatches) {
      var g0 := g.(saved := Some(sc.value.recordType));
      VisitConsistent(g0, Cuts(d), d.distance, s.threshold, s.locations, sc.value.times);
      VisitShaped(g0.(times := g.times + sc.value.times), Cuts(d), d.distance, s.locations, s.threshold, s.depths);
    }
  }

  /** The datasets one by one from the empty aggregate, stopping at the first failure. */
  function Aggregated(datasets: seq<ModelDataset>, s: Settings): (r: Result<Aggregate>)
    requires forall i :: 0 <= i < |datasets| ==> WellFormed(datasets[i], s.locations, s.depths)
    ensures r.Ok? ==> r.value.saved.Some? || r.value.times == []
  {
    if datasets == [] then Ok(Initial)
    else
      var p := Aggregated(datasets[..|datasets| - 1], s);
      if p.Err? then p else DatasetStep(p.value, datasets[|datasets| - 1], s)
  }

  /** Every aggregate reached is consistent and shaped. */
  lemma {:induction false} AggregatedConsistent(datasets: seq<ModelDataset>, s: Settings)
    requires forall i :: 0 <= i < |datasets| ==> WellFormed(datasets[i], s.locations, s.depths)
    ensures Aggregated(datasets, s).Ok? ==> (Consistent(Aggregated(datasets, s).value, s.locations) &&
                                            Shaped(Aggregated(datasets, s).value, s.depths))
  {
    if datasets != [] {
      var p := datasets[..|datasets| - 1];
      AggregatedConsistent(p, s);
      if Aggregated(p, s).Ok? {
        DatasetStepConsistent(Aggregated(p, s).value, datasets[|datasets| - 1], s);
      }
    }
  }

  /** Once a record type is known it never changes (mixed types stop the run). */
  lemma {:induction false} AggregatedRecordType(datasets: seq<ModelDataset>, s: Settings, k: nat)
    requires forall i :: 0 <= i < |datasets| ==> WellFormed(datasets[i], s.locations, s.depths)
    requires k <= |datasets|
    requires Aggregated(datasets[..k], s).Ok? && Aggregated(datasets[..k], s).value.saved.Some?
    ensures Aggregated(datasets, s).Ok? ==> Aggregated(datasets, s).value.saved == Aggregated(datasets[..k], s).value.saved
    decreases |datasets| - k
  {
    if k < |datasets| {
      var q := datasets[..k + 1];
      assert q[..k] == datasets[..k];
      assert forall i :: 0 <= i < |q| ==> q[i] == datasets[i];
      assert Aggregated(q, s).Ok? ==> Aggregated(q, s).value.saved == Aggregated(datasets[..k], s).value.saved;
      if Aggregated(q, s).Ok? {
        AggregatedRecordType(datasets, s, k + 1);
      } else {
        AggregatedStops(datasets, s, k + 1);
      }
    } else {
      assert datasets[..k] == datasets;
    }
  }

  /** A failure stops the run with its reason. */
  lemma {:induction false} AggregatedStops(datasets: seq<ModelDataset>, s: Settings, k: nat)
    requires forall i :: 0 <= i < |datasets| ==> WellFormed(datasets[i], s.locations, s.depths)
    requires k <= |datasets|
    requires Aggregated(datasets[..k], s).Err?
    ensures Aggregated(datasets, s) == Aggregated(datasets[..k], s)
    decreases |datasets| - k
  {
    if k < |datasets| {
      var q := datasets[..k + 1];
      assert q[..k] == datasets[..k];
      assert forall i :: 0 <= i < |q| ==> q[i] == datasets[i];
      AggregatedStops(datasets, s, k + 1);
    } else {
      assert datasets[..k] == datasets;
    }
  }

  /** Two datasets over two locations, the second one far from the grid: as written the first
      location's record of the second dataset is stored masked, as intended it is kept. */
  lemma {:induction false} StaleSwitchExample()
    ensures var cuts := [[[Some(1.0)]], [[Some(2.0)]]];
      var later := [[[Some(3.0)]], [[Some(4.0)]]];
      var distance := [Some(0.0), None];
      var w := VisitLocationsAsWritten(VisitLocationsAsWritten(Initial, cuts, distance, 2, 10.0), later, distance, 2, 10.0);
      var v := VisitLocations(VisitLocations(Initial, cuts, distance, 2, 10.0), later, distance, 2, 10.0);
      w.rows == map[0 := [[Some(1.0)], [None]]] && v.rows == map[0 := [[Some(1.0)], [Some(3.0)]]]
  {
    var cuts := [[[Some(1.0)]], [[Some(2.0)]]];
    var later := [[[Some(3.0)]], [[Some(4.0)]]];
    var distance := [Some(0.0), None];
    var w1 := VisitLocationsAsWritten(Initial, cuts, distance, 2, 10.0);
    assert VisitLocationsAsWritten(Initial, cuts, distance, 1, 10.0) == Aggregate([], [], map[0 := [[Some(1.0)]]], false, None);
    assert w1 == Aggregate([], [1], map[0 := [[Some(1.0)]]], true, None);
    var m := MaskedLike([[Some(3.0)]]);
    assert |m| == 1 && |m[0]| == 1 && m[0][0] == None;
    assert m[0] == [None];
    assert m == [[None]];
    assert [[Some(1.0)]] + [[None]] == [[Some(1.0)], [None]];
    assert VisitLocationsAsWritten(w1, later, distance, 1, 10.0).rows == map[0 := [[Some(1.0)], [None]]];
    var v1 := VisitLocations(Initial, cuts, distance, 2, 10.0);
    assert VisitLocations(Initial, cuts, distance, 1, 10.0) == Aggregate([], [], map[0 := [[Some(1.0)]]], false, None);
    assert v1 == Aggregate([], [1], map[0 := [[Some(1.0)]]], true, None);
    assert [[Some(1.0)]] + [[Some(3.0)]] == [[Some(1.0)], [Some(3.0)]];
    assert VisitLocations(v1, later, distance, 1, 10.0).rows == map[0 := [[Some(1.0)], [Some(3.0)]]];
  }

  // ---------------------------------------------------------------- output

  /** No time occurs twice (`np.unique` with `return_counts`). */
  predicate NoDuplicates(times: seq<int>) {
    forall j :: 0 <= j < |times| ==> Steps.Count(times, times[j]) <= 1
  }

  /** The output time axis, `pd.date_range(start, end, freq)`: from `start` in steps of `step`
      up to `end`. */
  function Grid(start: int, end: int, step: int): (r: seq<int>)
    requires step > 0 && start <= end
    ensures |r| == (end - start) / step + 1
    ensures forall k :: 0 <= k < |r| ==> r[k] == start + k * step
  {
    seq((end - start) / step + 1, k => start + k * step)
  }

  /** The axis starts at `start` and ends within one step of `end`. */
  lemma {:induction false} GridEnds(start: int, end: int, step: int)
    requires step > 0 && start <= end
    ensures var r := Grid(start, end, step); r[0] == start && r[|r| - 1] <= end < r[|r| - 1] + step
  {
    var q := (end - start) / step;
    var e := (end - start) % step;
    assert end - start == q * step + e && 0 <= e < step;
    assert Grid(start, end, step)[q] == start + q * step;
  }

  /** The axis is strictly increasing. */
  lemma {:induction false} GridIncreasing(start: int, end: int, step: int)
    requires step > 0 && start <= end
    ensures StrictlyIncreasing(Grid(start, end, step))
  {
    var r := Grid(start, end, step);
    forall i, j | 0 <= i < j < |r|
      ensures r[i] < r[j]
    {
      MulAtLeast(j - i, step);
      assert r[j] - r[i] == (j - i) * step;
    }
  }

  lemma {:induction false} MulAtLeast(m: int, step: int)
    requires m >= 1 && step > 0
    ensures m * step >= step
  {
    assert m * step == (m - 1) * step + step;
  }

  /** A time at or after `start`, at most `end` and a whole number of steps from `start` is on
      the axis. */
  lemma {:induction false} OnGridIn(start: int, end: int, step: int, t: int)
    requires step > 0 && start <= t <= end && (t - start) % step == 0
    ensures t in Grid(start, end, step)
  {
    var r := Grid(start, end, step);
    var k := (t - start) / step;
    assert t - start == k * step;
    assert 0 <= k;
    assert k <= (end - start) / step by {
      DivMonotone(t - start, end - start, step);
    }
    assert r[k] == t;
  }

  lemma {:induction false} DivMonotone(a: int, b: int, d: int)
    requires 0 <= a <= b && d > 0
    ensures a / d <= b / d
  {
    var qa, qb := a / d, b / d;
    if qa > qb {
      MulAtLeast(qa - qb, d);
      assert false;
    }
  }


  /** Every time is on the grid from `start` in steps of `step`. */
  predicate OnGrid(times: seq<int>, start: int, step: int)
    requires step > 0
  {
    forall j :: 0 <= j < |times| ==> (times[j] - start) % step == 0
  }

  /** Half the record length: half a day for daily means and half an hour for hourly means. */
  function HalfStep(saved: Option<RecordType>): (h: int)
    ensures h == 1800 || h == 43200
  {
    if saved == Some(HM) then 1800 else 43200
  }

  /** The output of every location: a regular time axis from the earliest to the latest time,
      in days for daily and in hours for hourly means, the record bounds half a step either
      side, and a masked series on that axis with every record at its time. */
  datatype TimeSeries = TimeSeries(time: seq<int>, bounds: seq<(int, int)>, data: map<nat, Matrix>)

  /** The record bounds, half a step either side of each time. */
  function Bounds(time: seq<int>, half: int): (r: seq<(int, int)>)
    ensures |r| == |time| && forall k :: 0 <= k < |time| ==> r[k].0 == time[k] - half && r[k].1 == time[k] + half
  {
    seq(|time|, k requires 0 <= k < |time| => (time[k] - half, time[k] + half))
  }

  /** Every location's records, taken in the order `order`, placed at the axis indices `idx`
      of a masked series of `count` records (`out[idx, ...] = aggregated[order]`). */
  function PlaceAll(rows: map<nat, Matrix>, count: nat, depths: nat, idx: seq<nat>, order: seq<nat>): (r: map<nat, Matrix>)
    requires |idx| == |order| && forall k :: 0 <= k < |idx| ==> idx[k] < count
    requires forall l :: l in rows ==> forall k :: 0 <= k < |order| ==> order[k] < |rows[l]|
    ensures r.Keys == rows.Keys
    ensures forall l :: l in r ==> r[l] == Assign(MaskedAll(count, depths), idx, Permute(rows[l], order))
    ensures forall l :: l in r ==> |r[l]| == count
  {
    map l | l in rows :: Assign(MaskedAll(count, depths), idx, Permute(rows[l], order))
  }

  /** The output of an aggregate: failing on no time or a repeated time, and when a record
      time is off the regular axis (the assignment's shapes then differ). */
  function Output(g: Aggregate, depths: nat): (r: Result<TimeSeries>)
    requires forall l :: l in g.rows ==> |g.rows[l]| == |g.times|
    ensures r.Ok? ==> g.times != [] && NoDuplicates(g.times)
    ensures r.Ok? ==> r.value.data.Keys == g.rows.Keys && |r.value.bounds| == |r.value.time|
    ensures r.Ok? ==> forall l :: l in r.value.data ==> |r.value.data[l]| == |r.value.time|
    ensures r.Ok? ==> r.value.bounds == Bounds(r.value.time, HalfStep(g.saved))
  {
    if g.times == [] then Err("no data")
    else if !NoDuplicates(g.times) then Err("duplicated times")
    else
      var order := ArgSort(g.times);
      var sorted := Permute(g.times, order);
      var half := HalfStep(g.saved);
      var grid := Grid(sorted[0], sorted[|sorted| - 1], 2 * half);
      var idx := Positions(grid, g.times);
      if |idx| != |g.times| then Err("shape mismatch")
      else Ok(TimeSeries(grid, Bounds(grid, half), PlaceAll(g.rows, |grid|, depths, idx, order)))
  }

  /** Without repeated times the sorted times are strictly increasing and hold the same times. */
  lemma {:induction false} SortedTimes(times: seq<int>)
    requires NoDuplicates(times) && times != []
    ensures SortedOf(Permute(times, ArgSort(times)), times)
  {
    var sorted := Permute(times, ArgSort(times));
    assert sorted == Sort(times);
    SortNoDuplicates(times);
    forall x
      ensures x in sorted <==> x in times
    {
      assert x in sorted <==> x in multiset(sorted);
      assert x in times <==> x in multiset(times);
    }
  }

  /** The times in increasing order, each once: what sorting a sequence without repetitions
      gives. */
  ghost predicate SortedOf(sorted: seq<int>, times: seq<int>) {
    StrictlyIncreasing(sorted) && |sorted| == |times| && sorted != [] && forall x :: x in sorted <==> x in times
  }

  /** The axis times that are record times, in order, are the sorted record times when there
      are as many of them as records. */
  lemma {:induction false} FilterCounted(times: seq<int>, sorted: seq<int>, step: int)
    requires SortedOf(sorted, times) && step > 0
    requires |Positions(Grid(sorted[0], sorted[|sorted| - 1], step), times)| == |times|
    ensures Filter(Grid(sorted[0], sorted[|sorted| - 1], step), times) == sorted
  {
    var grid := Grid(sorted[0], sorted[|sorted| - 1], step);
    var f := Filter(grid, times);
    assert StrictlyIncreasing(f) by {
      GridIncreasing(sorted[0], sorted[|sorted| - 1], step);
      FilterIncreasing(grid, times);
    }
    PositionsRead(grid, times);
    IncreasingSubset(f, sorted);
  }

  /** When every time is a whole number of steps from the first, the axis times that are
      record times are the sorted record times. */
  lemma {:induction false} FilterOnGrid(times: seq<int>, sorted: seq<int>, step: int)
    requires SortedOf(sorted, times) && step > 0
    requires OnGrid(times, times[0], step)
    ensures Filter(Grid(sorted[0], sorted[|sorted| - 1], step), times) == sorted
  {
    var grid := Grid(sorted[0], sorted[|sorted| - 1], step);
    forall x | x in times
      ensures x in grid
    {
      OnAxis(times, sorted, step, x);
    }
    assert StrictlyIncreasing(Filter(grid, times)) by {
      GridIncreasing(sorted[0], sorted[|sorted| - 1], step);
      FilterIncreasing(grid, times);
    }
    IncreasingSame(Filter(grid, times), sorted);
  }

  /** A record time on the grid of the first time lies on the output axis. */
  lemma {:induction false} OnAxis(times: seq<int>, sorted: seq<int>, step: int, x: int)
    requires SortedOf(sorted, times) && step > 0
    requires OnGrid(times, times[0], step) && x in times
    ensures x in Grid(sorted[0], sorted[|sorted| - 1], step)
  {
    var lo, hi := sorted[0], sorted[|sorted| - 1];
    assert lo <= x <= hi by {
      var k :| 0 <= k < |sorted| && sorted[k] == x;
      if k > 0 { assert sorted[0] < sorted[k]; }
      if k < |sorted| - 1 { assert sorted[k] < sorted[|sorted| - 1]; }
    }
    assert (x - lo) % step == 0 by {
      assert lo in times;
      var i0 :| 0 <= i0 < |times| && times[i0] == lo;
      var j :| 0 <= j < |times| && times[j] == x;
      OnGridPair(times, times[0], step, j, i0, x, lo);
    }
    OnGridIn(lo, hi, step, x);
  }

  /** Two times on a grid are a whole number of steps apart. */
  lemma {:induction false} OnGridPair(times: seq<int>, start: int, step: int, i: nat, j: nat, a: int, b: int)
    requires step > 0 && OnGrid(times, start, step) && i < |times| && j < |times|
    requires times[i] == a && times[j] == b
    ensures (a - b) % step == 0
  {
    ModDifference(a, b, start, step);
  }

  lemma {:induction false} ModDifference(a: int, b: int, c: int, m: int)
    requires m > 0 && (a - c) % m == 0 && (b - c) % m == 0
    ensures (a - b) % m == 0
  {
    var p, q := a - c, b - c;
    var x := a - b;
    assert x == p - q;
    var d := p / m - q / m - x / m;
    assert p == (p / m) * m && q == (q / m) * m;
    assert x == (x / m) * m + x % m;
    assert x % m == d * m by {
      assert x % m == p - q - (x / m) * m;
      assert p - q - (x / m) * m == (p / m - q / m - x / m) * m;
    }
    MultipleBelow(d, m);
  }


  /** The only multiple of `m` in `[0, m)` is 0. */
  lemma {:induction false} MultipleBelow(c: int, m: int)
    requires m > 0 && 0 <= c * m < m
    ensures c == 0
  {
    if c >= 1 {
      MulAtLeast(c, m);
    } else if c <= -1 {
      MulAtLeast(-c, m);
    }
  }


  /** The record step of the output axis. */
  function RecordStep(saved: Option<RecordType>): (step: int)
    ensures step == 3600 || step == 86400
  {
    2 * HalfStep(saved)
  }

  /** The output exists when there is a time, no time is repeated and every time is a whole
      number of record steps from the first. */
  lemma {:induction false} OutputOnGrid(g: Aggregate, depths: nat)
    requires forall l :: l in g.rows ==> |g.rows[l]| == |g.times|
    requires g.times != [] && NoDuplicates(g.times) && OnGrid(g.times, g.times[0], RecordStep(g.saved))
    ensures Output(g, depths).Ok?
  {
    var step := RecordStep(g.saved);
    var sorted := Permute(g.times, ArgSort(g.times));
    SortedTimes(g.times);
    var grid := Grid(sorted[0], sorted[|sorted| - 1], step);
    PositionsRead(grid, g.times);
    FilterOnGrid(g.times, sorted, step);
  }

  /** Only then: an output means every time is a whole number of record steps from the first. */
  lemma {:induction false} OutputOnlyOnGrid(g: Aggregate, depths: nat)
    requires forall l :: l in g.rows ==> |g.rows[l]| == |g.times|
    requires Output(g, depths).Ok?
    ensures OnGrid(g.times, g.times[0], RecordStep(g.saved))
  {
    var order, sorted, grid, idx := OutputParts(g, depths);
    AllOnAxis(g.times, sorted, RecordStep(g.saved));
  }

  /** What an output is made of: the sorting order and the sorted times, the axis from the
      first to the last time, and the positions on it of the record times, one per record. */
  lemma {:induction false} OutputParts(g: Aggregate, depths: nat) returns (order: seq<nat>, sorted: seq<int>, grid: seq<int>, idx: seq<nat>)
    requires forall l :: l in g.rows ==> |g.rows[l]| == |g.times|
    requires Output(g, depths).Ok?
    ensures |order| == |g.times| && (forall m :: 0 <= m < |order| ==> order[m] < |g.times|)
    ensures multiset(order) == multiset(Range(0, |g.times|)) && sorted == Permute(g.times, order)
    ensures SortedOf(sorted, g.times)
    ensures grid == Grid(sorted[0], sorted[|sorted| - 1], RecordStep(g.saved))
    ensures idx == Positions(grid, g.times) && |idx| == |g.times| && Filter(grid, g.times) == sorted
    ensures Output(g, depths).value == TimeSeries(grid, Bounds(grid, HalfStep(g.saved)), PlaceAll(g.rows, |grid|, depths, idx, order))
  {
    order := ArgSort(g.times);
    sorted := Permute(g.times, order);
    SortedTimes(g.times);
    grid := Grid(sorted[0], sorted[|sorted| - 1], RecordStep(g.saved));
    idx := Positions(grid, g.times);
    FilterCounted(g.times, sorted, RecordStep(g.saved));
  }

  /** When the axis times that are record times are all the record times, every time is a
      whole number of steps from the first. */
  lemma {:induction false} AllOnAxis(times: seq<int>, sorted: seq<int>, step: int)
    requires SortedOf(sorted, times) && step > 0
    requires Filter(Grid(sorted[0], sorted[|sorted| - 1], step), times) == sorted
    ensures OnGrid(times, times[0], step)
  {
    forall j | 0 <= j < |times|
      ensures (times[j] - times[0]) % step == 0
    {
      OneOnAxis(times, sorted, step, times[j], times[0]);
    }
  }

  lemma {:induction false} OneOnAxis(times: seq<int>, sorted: seq<int>, step: int, x: int, y: int)
    requires SortedOf(sorted, times) && step > 0
    requires Filter(Grid(sorted[0], sorted[|sorted| - 1], step), times) == sorted
    requires x in times && y in times
    ensures (x - y) % step == 0
  {
    var lo, hi := sorted[0], sorted[|sorted| - 1];
    assert x in Filter(Grid(lo, hi, step), times) && y in Filter(Grid(lo, hi, step), times);
    AxisApart(lo, hi, step, x, y);
  }

  /** Two times on the axis are a whole number of steps apart. */
  lemma {:induction false} AxisApart(lo: int, hi: int, step: int, x: int, y: int)
    requires lo <= hi && step > 0 && x in Grid(lo, hi, step) && y in Grid(lo, hi, step)
    ensures (x - y) % step == 0
  {
    AxisMultiple(lo, hi, step, x);
    AxisMultiple(lo, hi, step, y);
    ModDifference(x, y, lo, step);
  }

  /** A time on the axis is a whole number of steps from its start. */
  lemma {:induction false} AxisMultiple(lo: int, hi: int, step: int, x: int)
    requires lo <= hi && step > 0 && x in Grid(lo, hi, step)
    ensures (x - lo) % step == 0
  {
    var grid := Grid(lo, hi, step);
    var k :| 0 <= k < |grid| && grid[k] == x;
    assert x - lo == k * step;
    MultipleMod(k, step);
  }

  lemma {:induction false} MultipleMod(k: int, m: int)
    requires m > 0
    ensures (k * m) % m == 0
  {
    var x := k * m;
    assert x == (x / m) * m + x % m;
    assert x % m == (k - x / m) * m;
    MultipleBelow(k - x / m, m);
  }

  /** In the output every record of every accepted location sits at its own time. */
  lemma {:induction false} OutputRecord(g: Aggregate, depths: nat, l: nat, j: nat) returns (k: nat)
    requires forall l :: l in g.rows ==> |g.rows[l]| == |g.times|
    requires Output(g, depths).Ok? && l in g.rows && j < |g.times|
    ensures k < |Output(g, depths).value.time|
    ensures Output(g, depths).value.time[k] == g.times[j]
    ensures Output(g, depths).value.data[l][k] == g.rows[l][j]
  {
    var order, sorted, grid, idx := OutputParts(g, depths);
    k := PlacedAt(g.times, g.rows, depths, order, sorted, grid, l, j);
  }

  /** Placing the records taken in the sorting order at the axis positions of the record times
      puts each record at its time. */
  lemma {:induction false} PlacedAt(times: seq<int>, rows: map<nat, Matrix>, depths: nat, order: seq<nat>,
                                    sorted: seq<int>, grid: seq<int>, l: nat, j: nat) returns (k: nat)
    requires |order| == |times| && (forall m :: 0 <= m < |order| ==> order[m] < |times|)
    requires multiset(order) == multiset(Range(0, |times|)) && sorted == Permute(times, order)
    requires forall l :: l in rows ==> |rows[l]| == |times|
    requires |Positions(grid, times)| == |times| && Filter(grid, times) == sorted
    requires l in rows && j < |times|
    ensures k < |grid| && grid[k] == times[j]
    ensures PlaceAll(rows, |grid|, depths, Positions(grid, times), order)[l][k] == rows[l][j]
  {
    var idx := Positions(grid, times);
    var m :| 0 <= m < |order| && order[m] == j by {
      var range := Range(0, |times|);
      assert range[j] == j;
      assert j in multiset(range);
      assert j in multiset(order);
    }
    k := idx[m];
    PositionsRead(grid, times);
    var placed := Permute(rows[l], order);
    AssignPlaces(MaskedAll(|grid|, depths), idx, placed);
  }

  /** In the output every time of the axis that is no record time is masked. */
  lemma {:induction false} OutputGap(g: Aggregate, depths: nat, l: nat, k: nat)
    requires forall l :: l in g.rows ==> |g.rows[l]| == |g.times|
    requires Output(g, depths).Ok? && l in g.rows && k < |Output(g, depths).value.time|
    requires Output(g, depths).value.time[k] !in g.times
    ensures |Output(g, depths).value.data[l][k]| == depths
    ensures forall d :: 0 <= d < depths ==> Output(g, depths).value.data[l][k][d].None?
  {
    var order, sorted, grid, idx := OutputParts(g, depths);
    GapMasked(g.times, g.rows, depths, order, grid, idx, l, k);
  }

  /** A position of the axis that no record time takes keeps its masked row. */
  lemma {:induction false} GapMasked(times: seq<int>, rows: map<nat, Matrix>, depths: nat, order: seq<nat>,
                                     grid: seq<int>, idx: seq<nat>, l: nat, k: nat)
    requires |order| == |times| && (forall m :: 0 <= m < |order| ==> order[m] < |times|)
    requires forall l :: l in rows ==> |rows[l]| == |times|
    requires idx == Positions(grid, times) && |idx| == |times|
    requires l in rows && k < |grid| && grid[k] !in times
    ensures |PlaceAll(rows, |grid|, depths, idx, order)[l][k]| == depths
    ensures forall d :: 0 <= d < depths ==> PlaceAll(rows, |grid|, depths, idx, order)[l][k][d].None?
  {
    assert k !in idx;
    assert PlaceAll(rows, |grid|, depths, idx, order)[l] == Assign(MaskedAll(|grid|, depths), idx, Permute(rows[l], order));
  }

  /** The output places every record of every accepted location at its time. */
  lemma {:induction false} OutputPlaces(g: Aggregate, depths: nat)
    requires forall l :: l in g.rows ==> |g.rows[l]| == |g.times|
    requires Output(g, depths).Ok?
    ensures var o := Output(g, depths).value;
      forall l, j :: l in g.rows && 0 <= j < |g.times| ==>
        exists k :: 0 <= k < |o.time| && o.time[k] == g.times[j] && o.data[l][k] == g.rows[l][j]
  {
    var o := Output(g, depths).value;
    forall l, j | l in g.rows && 0 <= j < |g.times|
      ensures exists k :: 0 <= k < |o.time| && o.time[k] == g.times[j] && o.data[l][k] == g.rows[l][j]
    {
      var k := OutputRecord(g, depths, l, j);
    }
  }

  /** The output masks every time of the axis that is no record time. */
  lemma {:induction false} OutputMasksGaps(g: Aggregate, depths: nat)
    requires forall l :: l in g.rows ==> |g.rows[l]| == |g.times|
    requires Output(g, depths).Ok?
    ensures var o := Output(g, depths).value;
      forall l, k :: l in g.rows && 0 <= k < |o.time| && o.time[k] !in g.times ==>
        |o.data[l][k]| == depths && forall d :: 0 <= d < depths ==> o.data[l][k][d].None?
  {
    var o := Output(g, depths).value;
    forall l, k | l in g.rows && 0 <= k < |o.time| && o.time[k] !in g.times
      ensures |o.data[l][k]| == depths && forall d :: 0 <= d < depths ==> o.data[l][k][d].None?
    {
      OutputGap(g, depths, l, k);
    }
  }

  /** The output axis is strictly increasing in record steps. */
  lemma {:induction false} OutputAxisSteps(g: Aggregate, depths: nat)
    requires forall l :: l in g.rows ==> |g.rows[l]| == |g.times|
    requires Output(g, depths).Ok?
    ensures var o := Output(g, depths).value;
      StrictlyIncreasing(o.time) && forall k :: 0 <= k < |o.time| ==> o.time[k] == o.time[0] + k * RecordStep(g.saved)
  {
    var sorted := Permute(g.times, ArgSort(g.times));
    SortedTimes(g.times);
    var grid := Grid(sorted[0], sorted[|sorted| - 1], RecordStep(g.saved));
    assert Output(g, depths).value.time == grid;
    GridIncreasing(sorted[0], sorted[|sorted| - 1], RecordStep(g.saved));
  }

  /** `axis` starts and ends at a record time and spans all of them. */
  predicate Spans(axis: seq<int>, times: seq<int>) {
    axis != [] && axis[0] in times && axis[|axis| - 1] in times &&
    forall j :: 0 <= j < |times| ==> axis[0] <= times[j] <= axis[|axis| - 1]
  }

  /** The output axis runs from the earliest record time to the latest. */
  lemma {:induction false} OutputAxisSpan(g: Aggregate, depths: nat)
    requires forall l :: l in g.rows ==> |g.rows[l]| == |g.times|
    requires Output(g, depths).Ok?
    ensures Spans(Output(g, depths).value.time, g.times)
  {
    var order, sorted, grid, idx := OutputParts(g, depths);
    AxisSpan(g.times, sorted, RecordStep(g.saved));
  }

  /** An axis from the first to the last sorted time whose record times are all the times
      starts and ends at a time and spans them all. */
  lemma {:induction false} AxisSpan(times: seq<int>, sorted: seq<int>, step: int)
    requires SortedOf(sorted, times) && step > 0
    requires Filter(Grid(sorted[0], sorted[|sorted| - 1], step), times) == sorted
    ensures Spans(Grid(sorted[0], sorted[|sorted| - 1], step), times)
  {
    var lo, hi := sorted[0], sorted[|sorted| - 1];
    var grid := Grid(lo, hi, step);
    assert grid != [] && grid[0] == lo && grid[|grid| - 1] <= hi && StrictlyIncreasing(grid) by {
      GridEnds(lo, hi, step);
      GridIncreasing(lo, hi, step);
    }
    forall x | x in times
      ensures x in grid
    {
      assert x in Filter(grid, times);
    }
    SpanOfSorted(times, sorted, grid);
  }

  /** An axis from the first to about the last of the sorted times that holds every time
      starts and ends at a time and spans them all. */
  lemma {:induction false} SpanOfSorted(times: seq<int>, sorted: seq<int>, grid: seq<int>)
    requires SortedOf(sorted, times) && grid != [] && StrictlyIncreasing(grid)
    requires grid[0] == sorted[0] && grid[|grid| - 1] <= sorted[|sorted| - 1]
    requires forall x :: x in times ==> x in grid
    ensures grid[0] in times && grid[|grid| - 1] in times
    ensures forall j :: 0 <= j < |times| ==> grid[0] <= times[j] <= grid[|grid| - 1]
  {
    assert sorted[0] in times;
    var hi := sorted[|sorted| - 1];
    assert hi in times;
    var kh :| 0 <= kh < |grid| && grid[kh] == hi;
    assert grid[|grid| - 1] == hi by {
      if kh < |grid| - 1 { assert grid[kh] < grid[|grid| - 1]; }
    }
    forall j | 0 <= j < |times|
      ensures grid[0] <= times[j] <= grid[|grid| - 1]
    {
      var t := times[j];
      assert t in times;
      assert t in sorted;
      var k :| 0 <= k < |sorted| && sorted[k] == t;
      if k > 0 { assert sorted[0] < sorted[k]; }
      if k < |sorted| - 1 { assert sorted[k] < sorted[|sorted| - 1]; }
    }
  }

  // ---------------------------------------------------------------- the run

  /** The whole run: fatal when the first date is after the last, nothing to do without
      locations, otherwise the datasets aggregated in order and put out. */
  function Concatenated(datasets: seq<ModelDataset>, s: Settings): (r: Result<TimeSeries>)
    requires forall i :: 0 <= i < |datasets| ==> WellFormed(datasets[i], s.locations, s.depths)
    ensures s.first.Some? && s.last.Some? && s.first.value > s.last.value ==> r.Err?
    ensures r.Ok? ==> s.locations > 0 && Aggregated(datasets, s).Ok?
  {
    if s.first.Some? && s.last.Some? && s.first.value > s.last.value then Err("first date greater than last date")
    else if s.locations == 0 then Err("empty locations table")
    else
      var a := Aggregated(datasets, s);
      if a.Err? then Err(a.reason)
      else
        AggregatedConsistent(datasets, s);
        Output(a.value, s.depths)
  }

  /** An output holds exactly the locations that were not rejected for distance. */
  lemma {:induction false} ConcatenatedLocations(datasets: seq<ModelDataset>, s: Settings)
    requires forall i :: 0 <= i < |datasets| ==> WellFormed(datasets[i], s.locations, s.depths)
    requires Concatenated(datasets, s).Ok?
    ensures var g := Aggregated(datasets, s).value;
      forall l: nat :: l in Concatenated(datasets, s).value.data <==> l < s.locations && l !in g.rejected
  {
    AggregatedConsistent(datasets, s);
  }

  /** An output is the output of a consistent aggregate of all the datasets, so that the
      output lemmas above apply to it. */
  lemma {:induction false} ConcatenatedOutput(datasets: seq<ModelDataset>, s: Settings)
    requires forall i :: 0 <= i < |datasets| ==> WellFormed(datasets[i], s.locations, s.depths)
    requires Concatenated(datasets, s).Ok?
    ensures Aggregated(datasets, s).Ok?
    ensures Consistent(Aggregated(datasets, s).value, s.locations) && Shaped(Aggregated(datasets, s).value, s.depths)
    ensures Concatenated(datasets, s) == Output(Aggregated(datasets, s).value, s.depths)
  {
    AggregatedConsistent(datasets, s);
  }

  /** The loop over the locations of one dataset. */
  method VisitAll(g: Aggregate, cuts: seq<Matrix>, distance: seq<Option<real>>, n: nat, threshold: real) returns (h: Aggregate)
    requires n <= |cuts| && n <= |distance|
    ensures h == VisitLocations(g, cuts, distance, n, threshold)
  {
    h := g;
    var l := 0;
    while l < n
      invariant l <= n
      invariant h == VisitLocations(g, cuts, distance, l, threshold)
    {
      if l in h.rejected {
      } else if l !in h.rows {
        if Far(distance[l], threshold) {
          h := h.(rejected := h.rejected + [l], switch := true);
        } else {
          h := h.(rows := h.rows[l := cuts[l]], switch := false);
        }
      } else {
        h := h.(rows := h.rows[l := h.rows[l] + cuts[l]]);
      }
      l := l + 1;
    }
  }

  /** One pass of the loop over the datasets. */
  method Visit(g: Aggregate, d: ModelDataset, s: Settings) returns (r: Result<Aggregate>)
    requires WellFormed(d, s.locations, s.depths)
    ensures r == DatasetStep(g, d, s)
  {
    var sc := Screen(g.saved, d, s.first, s.last);
    if sc.Err? {
      return Err(sc.reason);
    }
    if sc.value.Outside? {
      return Ok(g);
    }
    var g0 := g.(saved := Some(sc.value.recordType));
    if !d.hasVariable || (!s.meshMask && !d.masked) {
      return Ok(g0);
    }
    if s.meshMask && !d.meshShapeMatches {
      return Err("model data and mask dimension mismatch");
    }
    var h := VisitAll(g0.(times := g.times + sc.value.times), Cuts(d), d.distance, s.locations, s.threshold);
    return Ok(h);
  }

  /** The run, with its loops. */
  method Concatenate(datasets: seq<ModelDataset>, s: Settings) returns (r: Result<TimeSeries>)
    requires forall i :: 0 <= i < |datasets| ==> WellFormed(datasets[i], s.locations, s.depths)
    ensures r == Concatenated(datasets, s)
  {
    if s.first.Some? && s.last.Some? && s.first.value > s.last.value {
      return Err("first date greater than last date");
    }
    if s.locations == 0 {
      return Err("empty locations table");
    }
    var a := AggregateAll(datasets, s);
    if a.Err? {
      return Err(a.reason);
    }
    AggregatedConsistent(datasets, s);
    r := Output(a.value, s.depths);
  }

  /** The loop over the datasets, stopping at the first that fails. */
  method AggregateAll(datasets: seq<ModelDataset>, s: Settings) returns (r: Result<Aggregate>)
    requires forall i :: 0 <= i < |datasets| ==> WellFormed(datasets[i], s.locations, s.depths)
    ensures r == Aggregated(datasets, s)
  {
    var g := Initial;
    var i := 0;
    while i < |datasets|
      invariant i <= |datasets|
      invariant Aggregated(datasets[..i], s) == Ok(g)
    {
      var step := Visit(g, datasets[i], s);
      AggregatedPrefix(datasets, s, i);
      if step.Err? {
        AggregatedStops(datasets, s, i + 1);
        return Err(step.reason);
      }
      g := step.value;
      i := i + 1;
    }
    assert datasets[..i] == datasets;
    r := Ok(g);
  }

  /** The aggregate of the first `i + 1` datasets from that of the first `i`. */
  lemma {:induction false} AggregatedPrefix(datasets: seq<ModelDataset>, s: Settings, i: nat)
    requires forall i :: 0 <= i < |datasets| ==> WellFormed(datasets[i], s.locations, s.depths)
    requires i < |datasets|
    ensures Aggregated(datasets[..i + 1], s) ==
      (var p := Aggregated(datasets[..i], s); if p.Err? then p else DatasetStep(p.value, datasets[i], s))
  {
    assert datasets[..i + 1][..i] == datasets[..i];
  }
}
