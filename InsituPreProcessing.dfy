/** `insitu_tac_pre_processing`: the rules that decide, platform by platform and field by field,
    what goes into the catalogue (SOURCE/obs_postpro/insitu_tac_pre_processing.py). Positions
    are the mean positions the script reads, times are seconds, and the per-level flag counts
    are those `data_information_calc` returns. */
module InsituPreProcessing {
  import opened Wrappers
  import opened Strings
  import opened Numerics

  // ---------------------------------------------------------------- region and masked seas

  /** A longitude/latitude box, open on every side. */
  datatype Box = Box(minLon: real, maxLon: real, minLat: real, maxLat: real)

  const BiscayGulf := Box(-9.25, -1.15, 43.28, 46.0)
  const MarmaraSea := Box(26.83, 29.94, 40.3, 41.08)
  const BlackSea := Box(27.32, 41.96, 40.91, 46.8)
  const AzovSea := Box(34.81, 39.3, 45.28, 47.28)

  /** The region to process: west, east, south and north boundaries. */
  datatype Region = Region(west: real, east: real, south: real, north: real)

  /** A missing region (`None`, `'None'` or `''`) is the whole globe. */
  function RegionOrDefault(region: Option<Region>): (r: Region)
    ensures region.None? ==> r == Region(-180.0, 180.0, -90.0, 90.0)
    ensures region.Some? ==> r == region.value
  {
    if region.None? then Region(-180.0, 180.0, -90.0, 90.0) else region.value
  }

  /** Which foreign seas are masked out. */
  datatype Masking = Masking(biscay: bool, marmara: bool, black: bool, azov: bool)

  /** The region reaches into a box. */
  predicate Reaches(r: Region, b: Box) {
    r.west < b.maxLon && r.east > b.minLon && r.south < b.maxLat && r.north > b.minLat
  }

  /** The four masking conditions: a sea is masked only when Mediterranean masking is asked for
      and the region reaches the sea's box. The Bay of Biscay is masked only when, besides, the
      region's west side lies inside the bay's longitudes (no open Atlantic); the Black Sea test
      compares the region's north side with the Marmara Sea's southern latitude. */
  function SeaMasking(r: Region, med: bool): (m: Masking)
    ensures !med ==> m == Masking(false, false, false, false)
    ensures m.marmara <==> med && Reaches(r, MarmaraSea)
    ensures m.azov <==> med && Reaches(r, AzovSea)
    ensures m.biscay ==> med && Reaches(r, BiscayGulf)
  {
    Masking(
      r.west > BiscayGulf.minLon && r.west < BiscayGulf.maxLon && r.east > BiscayGulf.minLon &&
        r.south < BiscayGulf.maxLat && r.north > BiscayGulf.minLat && med,
      r.west < MarmaraSea.maxLon && r.east > MarmaraSea.minLon &&
        r.south < MarmaraSea.maxLat && r.north > MarmaraSea.minLat && med,
      r.west < BlackSea.maxLon && r.east > BlackSea.minLon &&
        r.south < BlackSea.maxLat && r.north > MarmaraSea.minLat && med,
      r.west < AzovSea.maxLon && r.east > AzovSea.minLon &&
        r.south < AzovSea.maxLat && r.north > AzovSea.minLat && med)
  }

  predicate InBox(b: Box, lon: real, lat: real) {
    b.minLon < lon < b.maxLon && b.minLat < lat < b.maxLat
  }

  predicate InRegion(r: Region, lon: real, lat: real) {
    r.west < lon < r.east && r.south < lat < r.north
  }

  /** `out_of_area`: outside the region, or inside a masked sea. */
  predicate OutOfArea(r: Region, m: Masking, lon: real, lat: real) {
    !InRegion(r, lon, lat) ||
    (InBox(BiscayGulf, lon, lat) && m.biscay) || (InBox(MarmaraSea, lon, lat) && m.marmara) ||
    (InBox(BlackSea, lon, lat) && m.black) || (InBox(AzovSea, lon, lat) && m.azov)
  }

  /** Without Mediterranean masking a position is kept exactly when it is strictly inside the
      region. */
  lemma {:induction false} UnmaskedArea(r: Region, lon: real, lat: real)
    ensures !OutOfArea(r, SeaMasking(r, false), lon, lat) <==> InRegion(r, lon, lat)
  {
  }

  /** With Mediterranean masking, a position inside the Marmara, Black or Azov Sea box is out of
      area whatever the region. */
  lemma {:induction false} MaskedSeasExcluded(r: Region, lon: real, lat: real)
    requires InBox(MarmaraSea, lon, lat) || InBox(BlackSea, lon, lat) || InBox(AzovSea, lon, lat)
    ensures OutOfArea(r, SeaMasking(r, true), lon, lat)
  {
    if InRegion(r, lon, lat) {
      assert r.west < lon < r.east && r.south < lat < r.north;
    }
  }

  /** The Black Sea condition as a box test of its own, with the Black Sea's latitude. */
  function BlackSeaReached(r: Region, med: bool): bool {
    med && Reaches(r, BlackSea)
  }

  /** The Marmara latitude in the Black Sea test changes no decision: a region whose north side
      lies between the two latitudes leaves every Black Sea position out anyway. */
  lemma {:induction false} BlackSeaLatitudeHarmless(r: Region, med: bool, lon: real, lat: real)
    ensures OutOfArea(r, SeaMasking(r, med), lon, lat) ==
      OutOfArea(r, SeaMasking(r, med).(black := BlackSeaReached(r, med)), lon, lat)
  {
  }

  /** A Black Sea position is never kept when Mediterranean masking is on, even with a region
      that the Marmara latitude lets reach it. */
  lemma {:induction false} BlackSeaQuirkExample()
    ensures SeaMasking(Region(28.0, 30.0, 40.0, 40.5), true).black
    ensures !BlackSeaReached(Region(28.0, 30.0, 40.0, 40.5), true)
  {
  }

  // ---------------------------------------------------------------- positions

  /** `longitude_mean -= 360` above 180 degrees. */
  function NormalLongitude(x: real): (r: real)
    ensures -180.0 < x <= 540.0 ==> -180.0 < r <= 180.0
    ensures r == x || r == x - 360.0
  {
    if x > 180.0 then x - 360.0 else x
  }

  /** `latitude_mean -= 180` above 90 degrees. */
  function NormalLatitude(y: real): (r: real)
    ensures -90.0 < y <= 270.0 ==> -90.0 < r <= 90.0
    ensures r == y || r == y - 180.0
  {
    if y > 90.0 then y - 180.0 else y
  }

  /** Normalising twice is normalising once, for a mean of positions the script can meet. */
  lemma {:induction false} NormalIdempotent(x: real, y: real)
    requires x <= 540.0 && y <= 270.0
    ensures NormalLongitude(NormalLongitude(x)) == NormalLongitude(x)
    ensures NormalLatitude(NormalLatitude(y)) == NormalLatitude(y)
  {
  }

  const DuplicateThreshold: real := 0.0045

  /** The fewest records, and the fewest distinct times, a platform or a field may have. */
  const MinimumRecords := 2

  /** One row of the platform names file. */
  datatype NamedPosition = NamedPosition(longitude: real, latitude: real, name: string)

  predicate Near(p: NamedPosition, lon: real, lat: real) {
    Abs(p.longitude - lon) < DuplicateThreshold && Abs(p.latitude - lat) < DuplicateThreshold
  }

  /** The name of the first names-file row within the duplicate threshold of the position. */
  function FirstNear(rows: seq<NamedPosition>, lon: real, lat: real): (r: Option<nat>)
    ensures r.Some? ==> (r.value < |rows| && Near(rows[r.value], lon, lat) &&
      forall j :: 0 <= j < r.value ==> !Near(rows[j], lon, lat))
    ensures r.None? <==> forall j :: 0 <= j < |rows| ==> !Near(rows[j], lon, lat)
    decreases |rows|
  {
    if rows == [] then None
    else if Near(rows[0], lon, lat) then Some(0)
    else
      var k := FirstNear(rows[1..], lon, lat);
      assert forall j :: 0 <= j < |rows| - 1 ==> rows[1..][j] == rows[j + 1];
      if k.None? then None else Some(k.value + 1)
  }

  /** The loop over the names file, stopping at the first close row. */
  method DetectCsvName(rows: seq<NamedPosition>, lon: real, lat: real) returns (name: Option<string>)
    ensures FirstNear(rows, lon, lat).None? ==> name.None?
    ensures FirstNear(rows, lon, lat).Some? ==> name == Some(rows[FirstNear(rows, lon, lat).value].name)
  {
    name := None;
    for k := 0 to |rows|
      invariant forall j :: 0 <= j < k ==> !Near(rows[j], lon, lat)
    {
      if Near(rows[k], lon, lat) {
        name := Some(rows[k].name);
        return;
      }
    }
  }

  /** The platform name written to the catalogue: the names-file one when found, else the
      file's own unless it is blank, else the platform code. */
  function OutPlatformName(csvName: Option<string>, name: string, code: string): (r: string)
    ensures csvName.Some? ==> r == csvName.value
    ensures csvName.None? && name != "" && name != " " ==> r == name
    ensures csvName.None? && (name == "" || name == " ") ==> r == code
  {
    if csvName.Some? then csvName.value
    else if name == "" || name == " " then code
    else name
  }

  /** The device type: the file's `source`, `'undefined'` when missing or blank. */
  function PlatformType(source: Option<string>): (r: string)
    ensures r != "" && r != " "
    ensures source.Some? && source.value != "" && source.value != " " ==> r == source.value
  {
    if source.None? || source.value == "" || source.value == " " then "undefined" else source.value
  }

  // ---------------------------------------------------------------- platform gate

  datatype PlatformStatus = Concatenated | TypeNotSelected | OutOfSelectedArea | TooFewRecords | Proceed

  /** The checks a platform passes before its fields are looked at, in the script's order: a
      file already analyzed, a device type outside the chosen list, a position out of area, and
      fewer than two records. */
  function Platform(analyzed: bool, types: Option<seq<string>>, platformType: string,
                    r: Region, med: bool, lon: real, lat: real, records: nat): (s: PlatformStatus)
    ensures s == Proceed <==> (!analyzed && (types.None? || platformType in types.value) &&
      !OutOfArea(r, SeaMasking(r, med), NormalLongitude(lon), NormalLatitude(lat)) && records >= MinimumRecords)
    ensures s == OutOfSelectedArea ==> OutOfArea(r, SeaMasking(r, med), NormalLongitude(lon), NormalLatitude(lat))
  {
    if analyzed then Concatenated
    else if types.Some? && platformType !in types.value then TypeNotSelected
    else if OutOfArea(r, SeaMasking(r, med), NormalLongitude(lon), NormalLatitude(lat)) then OutOfSelectedArea
    else if records < MinimumRecords then TooFewRecords
    else Proceed
  }

  // ---------------------------------------------------------------- QC class of a field

  /** What `data_information_calc` reports for one depth level: the number of records and, for
      the no-QC, valid, filled and invalid flags, a count and the last index (-1 for none). */
  datatype LevelCounts = LevelCounts(total: nat, noQc: nat, lastNoQc: int, valid: nat, lastValid: int,
                                     filled: nat, lastFilled: int, invalid: nat, lastInvalid: int)

  /** A level takes part when it has valid or unchecked data. */
  predicate Listed(l: LevelCounts) {
    l.lastValid > -1 || l.lastNoQc > -1
  }

  /** The branch a listed level takes: no QC at all (neither valid nor invalid flags), good data
      flagged by 0 (no valid but invalid and unchecked flags), partly checked (some unchecked),
      or checked. */
  datatype LevelKind = Unlisted | NoControl | FlaggedByZero | PartlyControlled | Controlled

  function Kind(l: LevelCounts): LevelKind {
    if !Listed(l) then Unlisted
    else if l.valid == 0 && l.invalid == 0 then NoControl
    else if l.valid == 0 && l.invalid > 0 && l.noQc > 0 then FlaggedByZero
    else if l.noQc > 0 then PartlyControlled
    else Controlled
  }

  /** The levels that clear `full_quality_controls` and `no_quality_controls`. */
  predicate ClearsFull(l: LevelCounts) {
    Kind(l) == NoControl || Kind(l) == PartlyControlled
  }

  predicate ClearsNo(l: LevelCounts) {
    Kind(l) == PartlyControlled || Kind(l) == Controlled
  }

  predicate FullControls(levels: seq<LevelCounts>) {
    forall k :: 0 <= k < |levels| ==> !ClearsFull(levels[k])
  }

  predicate NoControls(levels: seq<LevelCounts>) {
    forall k :: 0 <= k < |levels| ==> !ClearsNo(levels[k])
  }

  /** The class written for the field. */
  function QcClass(full: bool, no: bool): (c: string)
    ensures c == "INVERTED" || c == "FULL" || c == "NO" || c == "PARTIAL"
  {
    if full && no then "INVERTED"
    else if full then "FULL"
    else if no then "NO"
    else "PARTIAL"
  }

  /** The 1-based numbers of the listed levels (`variable_valid_depth_levels`). */
  function ListedLevels(levels: seq<LevelCounts>): (r: seq<nat>)
  {
    if levels == [] then []
    else ListedLevels(levels[..|levels| - 1]) + (if Listed(levels[|levels| - 1]) then [|levels|] else [])
  }

  /** The listed levels are exactly the numbers of the levels with valid or unchecked data, in
      increasing order. */
  lemma {:induction false} ListedLevelsExact(levels: seq<LevelCounts>)
    ensures forall x :: x in ListedLevels(levels) <==> 1 <= x <= |levels| && Listed(levels[x - 1])
    ensures forall i, j :: 0 <= i < j < |ListedLevels(levels)| ==> ListedLevels(levels)[i] < ListedLevels(levels)[j]
    ensures forall i :: 0 <= i < |ListedLevels(levels)| ==> ListedLevels(levels)[i] <= |levels|
  {
    if levels != [] {
      var init := levels[..|levels| - 1];
      ListedLevelsExact(init);
      assert forall k :: 0 <= k < |init| ==> init[k] == levels[k];
      var r := ListedLevels(levels);
      var p := ListedLevels(init);
      assert forall i :: 0 <= i < |p| ==> p[i] < |levels|;
      assert forall i :: 0 <= i < |p| ==> r[i] == p[i];
    }
  }

  /** The loop over the depth levels of a field: the listed levels and the two flags. */
  method ClassifyLevels(levels: seq<LevelCounts>) returns (validLevels: seq<nat>, qc: string)
    ensures validLevels == ListedLevels(levels)
    ensures qc == QcClass(FullControls(levels), NoControls(levels))
  {
    var full, no := true, true;
    validLevels := [];
    for d := 0 to |levels|
      invariant validLevels == ListedLevels(levels[..d])
      invariant full == FullControls(levels[..d])
      invariant no == NoControls(levels[..d])
    {
      var l := levels[d];
      assert levels[..d + 1][..d] == levels[..d];
      assert forall k :: 0 <= k < d ==> levels[..d + 1][k] == levels[..d][k];
      if !Listed(l) {
        continue;
      }
      validLevels := validLevels + [d + 1];
      if l.valid == 0 && l.invalid == 0 {
        full := false;
      } else if l.valid == 0 && l.invalid > 0 && l.noQc > 0 {
      } else if l.noQc > 0 {
        no := false;
        full := false;
      } else {
        no := false;
      }
    }
    assert levels[..|levels|] == levels;
    if full && no {
      qc := "INVERTED";
    } else if full && !no {
      qc := "FULL";
    } else if !full && no {
      qc := "NO";
    } else {
      qc := "PARTIAL";
    }
  }

  /** What each class means: INVERTED when every listed level has its good data flagged by 0;
      FULL when every listed level is checked or flagged by 0 and one at least is checked; NO
      when every listed level is unchecked or flagged by 0 and one at least is unchecked. */
  lemma {:induction false} QcClassMeaning(levels: seq<LevelCounts>)
    ensures var c := QcClass(FullControls(levels), NoControls(levels));
      (c == "INVERTED" <==> forall k :: 0 <= k < |levels| ==> Kind(levels[k]) in {Unlisted, FlaggedByZero}) &&
      (c == "FULL" <==> ((forall k :: 0 <= k < |levels| ==> Kind(levels[k]) in {Unlisted, FlaggedByZero, Controlled}) &&
                         exists k :: 0 <= k < |levels| && Kind(levels[k]) == Controlled)) &&
      (c == "NO" <==> ((forall k :: 0 <= k < |levels| ==> Kind(levels[k]) in {Unlisted, FlaggedByZero, NoControl}) &&
                       exists k :: 0 <= k < |levels| && Kind(levels[k]) == NoControl))
  {
  }

  // ---------------------------------------------------------------- sampling time

  /** `%H`, `%M` or `%S`: two digits. */
  function TwoDigits(n: nat): (s: string)
    requires n < 100
  {
    [DigitChar(n / 10), DigitChar(n % 10)]
  }

  /** Hours, minutes and seconds of a time of day, as `time.gmtime` splits it. */
  datatype ClockTime = ClockTime(h: nat, mi: nat, sec: nat)

  function TimeParts(m: nat): (t: ClockTime)
    requires m < 86400
    ensures t.h < 24 && t.mi < 60 && t.sec < 60 && t.h * 3600 + t.mi * 60 + t.sec == m
  {
    var h := m / 3600;
    var rest := m - h * 3600;
    var mi := rest / 60;
    ClockTime(h, mi, rest - mi * 60)
  }

  /** `time.strftime('%H:%M:%S', time.gmtime(m))` for the seconds of one day. */
  function Clock(m: nat): (s: string)
    requires m < 86400
  {
    var t := TimeParts(m);
    ClockText(t.h, t.mi, t.sec)
  }

  function ClockText(h: nat, mi: nat, sec: nat): string
    requires h < 100 && mi < 100 && sec < 100
  {
    TwoDigits(h) + ":" + TwoDigits(mi) + ":" + TwoDigits(sec)
  }

  /** Days and time of day of a sampling time (a positive number of seconds, as `time_calc`
      gives it), one day at a time. */
  datatype Elapsed = Elapsed(days: nat, clock: nat)

  function SplitDays(seconds: nat): (e: Elapsed)
    ensures e.clock < 86400 && e.days * 86400 + e.clock == seconds
  {
    if seconds < 86400 then Elapsed(0, seconds)
    else var e := SplitDays(seconds - 86400); Elapsed(e.days + 1, e.clock)
  }

  /** They are the quotient and the remainder of `//` by 86400. */
  lemma {:induction false} SplitDaysDivides(seconds: nat)
    ensures SplitDays(seconds) == Elapsed(seconds / 86400, seconds % 86400)
  {
    var e := SplitDays(seconds);
    DivisionUnique(seconds, e.days, e.clock);
  }

  lemma {:induction false} DivisionUnique(n: nat, q: nat, r: nat)
    requires r < 86400 && q * 86400 + r == n
    ensures q == n / 86400 && r == n % 86400
  {
  }

  /** The days of the sampling time, padded with `'00'` below `two` days and with `'0'` below
      `three`. */
  function DaysText(d: int, two: int, three: int): string {
    if d < two then "00" + IntToString(d)
    else if d < three then "0" + IntToString(d)
    else IntToString(d)
  }

  /** The column for days and a time of day, the days padded below the two thresholds. */
  function SamplingText(e: Elapsed, two: int, three: int): (r: Option<string>)
    requires e.clock < 86400
    ensures r.None? <==> e.days >= 999
  {
    if e.days < 999 then Some(DaysText(e.days, two, three) + " " + Clock(e.clock)) else None
  }

  /** The sampling-time column as the script writes it: `'00'` before fewer than 9 days, `'0'`
      before fewer than 99, nothing before fewer than 999, and no string from 999 days on. */
  function SamplingTimeAsWritten(seconds: nat): (r: Option<string>)
    ensures r.None? <==> SplitDays(seconds).days >= 999
  {
    SamplingText(SplitDays(seconds), 9, 99)
  }

  /** The sampling-time column with the days written on three digits, as the thresholds
      evidently intend. */
  function SamplingTime(seconds: nat): (r: Option<string>)
    ensures r.None? <==> SplitDays(seconds).days >= 999
  {
    SamplingText(SplitDays(seconds), 10, 100)
  }

  /** `DDD HH:MM:SS` read back in seconds, `None` for any other shape. */
  function SamplingSeconds(t: string): (r: Option<int>)
    ensures r.Some? ==> r.value >= 0
  {
    if |t| == 12 && AllDigits(t[..3]) && t[3] == ' ' && AllDigits(t[4..6]) && t[6] == ':' &&
       AllDigits(t[7..9]) && t[9] == ':' && AllDigits(t[10..])
    then Some(DigitsValue(t[..3]) * 86400 + DigitsValue(t[4..6]) * 3600 + DigitsValue(t[7..9]) * 60 +
              DigitsValue(t[10..]))
    else None
  }

  lemma {:induction false} TwoDigitsValue(n: nat)
    requires n < 100
    ensures |TwoDigits(n)| == 2 && AllDigits(TwoDigits(n)) && DigitsValue(TwoDigits(n)) == n
  {
    var s := TwoDigits(n);
    DigitCharValue(n / 10);
    DigitCharValue(n % 10);
    assert s[..1] == [DigitChar(n / 10)];
    assert DigitsValue(s[..1]) == n / 10;
  }

  /** Where the pieces of `a:b:c` sit, for two-character pieces. */
  lemma {:induction false} ClockLayout(a: string, b: string, c: string)
    requires |a| == 2 && |b| == 2 && |c| == 2
    ensures var t := a + ":" + b + ":" + c;
      |t| == 8 && t[2] == ':' && t[5] == ':' && t[..2] == a && t[3..5] == b && t[6..] == c
  {
  }

  /** The clock text is `HH:MM:SS` with the three numbers it was written from. */
  lemma {:induction false} ClockTextValue(h: nat, mi: nat, sec: nat)
    requires h < 100 && mi < 100 && sec < 100
    ensures var c := ClockText(h, mi, sec);
      |c| == 8 && c[2] == ':' && c[5] == ':' && AllDigits(c[..2]) && AllDigits(c[3..5]) && AllDigits(c[6..]) &&
      DigitsValue(c[..2]) == h && DigitsValue(c[3..5]) == mi && DigitsValue(c[6..]) == sec
  {
    TwoDigitsValue(h);
    TwoDigitsValue(mi);
    TwoDigitsValue(sec);
    ClockLayout(TwoDigits(h), TwoDigits(mi), TwoDigits(sec));
  }

  /** The clock is `HH:MM:SS` and reads back as the seconds of the day. */
  lemma {:induction false} ClockValue(m: nat)
    requires m < 86400
    ensures var c := Clock(m);
      |c| == 8 && c[2] == ':' && c[5] == ':' && AllDigits(c[..2]) && AllDigits(c[3..5]) && AllDigits(c[6..]) &&
      DigitsValue(c[..2]) * 3600 + DigitsValue(c[3..5]) * 60 + DigitsValue(c[6..]) == m
  {
    var t := TimeParts(m);
    ClockTextValue(t.h, t.mi, t.sec);
  }

  /** Below 999 days the corrected days field has three digits and reads back as the days. */
  lemma {:induction false} DaysTextValue(d: nat)
    requires d < 999
    ensures var t := DaysText(d, 10, 100);
      |t| == 3 && AllDigits(t) && DigitsValue(t) == d
  {
    NatToStringLength(d);
    NatToStringValue(d);
    if d < 100 {
      LeadingZero(NatToString(d));
      if d < 10 {
        LeadingZero("0" + NatToString(d));
        assert "00" + NatToString(d) == "0" + ("0" + NatToString(d));
      }
    }
  }

  /** Where the pieces of `d c` sit, for a three-character day field and an eight-character
      clock. */
  lemma {:induction false} SamplingLayout(d: string, c: string)
    requires |d| == 3 && |c| == 8
    ensures var t := d + " " + c;
      |t| == 12 && t[..3] == d && t[3] == ' ' && t[4..6] == c[..2] && t[6] == c[2] && t[7..9] == c[3..5] &&
      t[9] == c[5] && t[10..] == c[6..]
  {
  }

  /** The corrected column reads back as the sampling time it was written from. */
  lemma {:induction false} SamplingTimeRoundTrip(seconds: nat)
    requires SplitDays(seconds).days < 999
    ensures SamplingSeconds(SamplingTime(seconds).value) == Some(seconds)
  {
    var e := SplitDays(seconds);
    PartsReadBack(e.days, e.clock);
    assert SamplingTime(seconds) == Some(DaysText(e.days, 10, 100) + " " + Clock(e.clock));
  }

  lemma {:induction false} PartsReadBack(days: nat, clock: nat)
    requires days < 999 && clock < 86400
    ensures SamplingSeconds(DaysText(days, 10, 100) + " " + Clock(clock)) == Some(days * 86400 + clock)
  {
    var d := DaysText(days, 10, 100);
    var c := Clock(clock);
    DaysTextValue(days);
    ClockValue(clock);
    ReadBack(d + " " + c, d, c, days, clock);
  }

  /** Reading back a well-laid-out column. */
  lemma {:induction false} ReadBack(t: string, d: string, c: string, days: int, clock: int)
    requires |d| == 3 && |c| == 8 && t == d + " " + c && c[2] == ':' && c[5] == ':'
    requires AllDigits(d) && AllDigits(c[..2]) && AllDigits(c[3..5]) && AllDigits(c[6..])
    requires DigitsValue(d) == days
    requires DigitsValue(c[..2]) * 3600 + DigitsValue(c[3..5]) * 60 + DigitsValue(c[6..]) == clock
    ensures SamplingSeconds(t) == Some(days * 86400 + clock)
  {
    SamplingLayout(d, c);
  }

  lemma {:induction false} TwoDigitsZero()
    ensures TwoDigits(0) == "00"
  {
  }

  lemma {:induction false} ClockTextZero()
    ensures ClockText(0, 0, 0) == "00:00:00"
  {
    TwoDigitsZero();
    assert ClockText(0, 0, 0) == "00" + ":" + "00" + ":" + "00";
  }

  /** Midnight is written `00:00:00`. */
  lemma {:induction false} MidnightClock()
    ensures Clock(0) == "00:00:00"
  {
    ClockTextZero();
    assert TimeParts(0) == ClockTime(0, 0, 0);
  }

  /** The days field of nine days, as written and as intended. */
  lemma {:induction false} NineDaysText()
    ensures DaysText(9, 9, 99) == "09" && DaysText(9, 10, 100) == "009"
  {
    assert IntToString(9) == "9";
  }

  lemma {:induction false} NineDaysSplit()
    ensures SplitDays(9 * 86400) == Elapsed(9, 0)
  {
  }

  lemma {:induction false} NineDaysAsWritten()
    ensures SamplingTimeAsWritten(9 * 86400) == Some("09 00:00:00")
  {
    NineDaysSplit();
    MidnightClock();
    NineDaysText();
    assert "09" + " " + "00:00:00" == "09 00:00:00";
  }

  lemma {:induction false} NineDaysCorrected()
    ensures SamplingTime(9 * 86400) == Some("009 00:00:00")
  {
    NineDaysSplit();
    MidnightClock();
    NineDaysText();
    assert "009" + " " + "00:00:00" == "009 00:00:00";
  }

  /** Nine days are written on two digits by the script, and the column no longer reads back. */
  lemma {:induction false} SamplingTimeNineDays()
    ensures SamplingTimeAsWritten(9 * 86400) == Some("09 00:00:00")
    ensures SamplingSeconds(SamplingTimeAsWritten(9 * 86400).value) == None
    ensures SamplingTime(9 * 86400) == Some("009 00:00:00")
  {
    NineDaysAsWritten();
    NineDaysCorrected();
  }

  /** The two columns differ only at 9 and at 99 days. */
  lemma {:induction false} SamplingTimeAgrees(seconds: nat)
    requires SplitDays(seconds).days != 9 && SplitDays(seconds).days != 99
    ensures SamplingTimeAsWritten(seconds) == SamplingTime(seconds)
  {
  }

  // ---------------------------------------------------------------- per-field outcome

  /** What the script learns about one selected field of a platform: whether the field and its
      quality-checked copy were extracted, the level counts, the number of distinct times, the
      `time_check` code, the mean position (`None` when masked), whether the position stays put
      (small variance or few distinct values, which sends the field to `depth_calc`), the depth
      levels and spacing `depth_calc` reports, the time span of the records and the sampling
      time `time_calc` gives, in seconds. */
  datatype FieldFacts = FieldFacts(name: string, extracted: bool, levels: seq<LevelCounts>, qcExtracted: bool,
                                   uniqueTimes: nat, timeStep: int, meanLon: Option<real>, meanLat: Option<real>,
                                   fixedPosition: bool, depthLevels: seq<string>, depthConstant: bool,
                                   depthGoodSpaced: bool, span: int, sampling: nat)

  /** Why a field is dropped. */
  datatype Skip = NoData | NoValidData | TooFewData | NoLongitude | NoLatitude | NoDepthLevels | ShortRecord |
                  LongSampling

  /** One kept field, as its entries in the per-field lists. */
  datatype FieldRow = FieldRow(name: string, qc: string, notes: string, lon: real, lat: real, sampling: string,
                               depths: string)

  datatype Outcome = Kept(row: FieldRow) | Skipped(reason: Skip)

  const MinimumRecordDays := 30

  /** The note `time_check` leaves: duplicated, reversed, or both. */
  function TimeNote(check: int): string {
    if check == 1 then "duplicated records "
    else if check == 2 then "reversed records "
    else if check == 3 then "duplicated and reversed records "
    else ""
  }

  /** The note the depth levels add: a changing but regular depth, or a changing irregular one. */
  function DepthNote(constant: bool, goodSpaced: bool): string {
    if !constant && goodSpaced then " probably replaced sensors"
    else if !constant then " not averaged depth levels"
    else ""
  }

  /** The field as the script processes it, in the order of its checks: the sampling string
      is the corrected one. */
  function FieldOutcome(f: FieldFacts, updateMode: bool): (o: Outcome)
    ensures o.Kept? ==> o.row.name == f.name && o.row.qc in {"INVERTED", "FULL", "NO", "PARTIAL"}
  {
    var qc := QcClass(FullControls(f.levels), NoControls(f.levels));
    if !f.extracted then Skipped(NoData)
    else if !f.qcExtracted then Skipped(NoValidData)
    else if |ListedLevels(f.levels)| == 0 || f.uniqueTimes < MinimumRecords then Skipped(TooFewData)
    else if f.meanLon.None? then Skipped(NoLongitude)
    else if f.meanLat.None? then Skipped(NoLatitude)
    else if f.fixedPosition && f.depthLevels == [] then Skipped(NoDepthLevels)
    else if !updateMode && f.span < MinimumRecordDays * 86400 then Skipped(ShortRecord)
    else if SamplingTime(f.sampling).None? then Skipped(LongSampling)
    else
      var lon := NormalLongitude(f.meanLon.value);
      var lat := NormalLatitude(f.meanLat.value);
      var notes := TimeNote(f.timeStep) + (if f.fixedPosition then DepthNote(f.depthConstant, f.depthGoodSpaced) else "");
      var depths := if f.fixedPosition then Join(f.depthLevels, ' ') else "floating";
      Kept(FieldRow(f.name, qc, notes, lon, lat, SamplingTime(f.sampling).value, depths))
  }

  /** A field is kept exactly when it passes every check, and its sampling string then reads
      back as the sampling time. */
  lemma {:induction false} FieldKeptExactly(f: FieldFacts, updateMode: bool)
    ensures FieldOutcome(f, updateMode).Kept? <==>
      f.extracted && f.qcExtracted && |ListedLevels(f.levels)| > 0 && f.uniqueTimes >= MinimumRecords &&
      f.meanLon.Some? && f.meanLat.Some? && (f.fixedPosition ==> f.depthLevels != []) &&
      (updateMode || f.span >= MinimumRecordDays * 86400) && SplitDays(f.sampling).days < 999
    ensures FieldOutcome(f, updateMode).Kept? ==>
      SamplingSeconds(FieldOutcome(f, updateMode).row.sampling) == Some(f.sampling)
  {
    if FieldOutcome(f, updateMode).Kept? {
      SamplingTimeRoundTrip(f.sampling);
    }
  }

  /** The skips after which the script leaves the placeholder of the field in `sampling_times`
      (it deletes it on every other skip). */
  predicate LeavesSampling(o: Outcome) {
    o.Skipped? && (o.reason == ShortRecord || o.reason == LongSampling)
  }

  /** The kept fields, in order. */
  function KeptRows(outcomes: seq<Outcome>): (rows: seq<FieldRow>)
    ensures |rows| <= |outcomes|
  {
    if outcomes == [] then []
    else
      var last := outcomes[|outcomes| - 1];
      KeptRows(outcomes[..|outcomes| - 1]) + (if last.Kept? then [last.row] else [])
  }

  /** `sampling_times` as the script leaves it: the kept fields' strings, and an empty string for
      every field dropped for a short record or a long sampling time. */
  function SamplingColumnAsWritten(outcomes: seq<Outcome>): seq<string> {
    if outcomes == [] then []
    else
      var last := outcomes[|outcomes| - 1];
      SamplingColumnAsWritten(outcomes[..|outcomes| - 1]) +
        (if last.Kept? then [last.row.sampling] else if LeavesSampling(last) then [""] else [])
  }

  /** The sampling column of the kept fields, one entry per field, as the other columns are. */
  function SamplingColumn(rows: seq<FieldRow>): (c: seq<string>)
    ensures |c| == |rows| && forall k :: 0 <= k < |rows| ==> c[k] == rows[k].sampling
  {
    seq(|rows|, k requires 0 <= k < |rows| => rows[k].sampling)
  }

  function NameColumn(rows: seq<FieldRow>): (c: seq<string>)
    ensures |c| == |rows| && forall k :: 0 <= k < |rows| ==> c[k] == rows[k].name
  {
    seq(|rows|, k requires 0 <= k < |rows| => rows[k].name)
  }

  /** The loop over the selected fields: a placeholder is appended to every per-field list,
      filled in when the field is kept and deleted when it is skipped, except that the two late
      skips do not delete the one in `sampling_times`. */
  method CollectFields(outcomes: seq<Outcome>) returns (rows: seq<FieldRow>, samplings: seq<string>)
    ensures rows == KeptRows(outcomes)
    ensures samplings == SamplingColumnAsWritten(outcomes)
  {
    rows, samplings := [], [];
    for i := 0 to |outcomes|
      invariant rows == KeptRows(outcomes[..i])
      invariant samplings == SamplingColumnAsWritten(outcomes[..i])
    {
      assert outcomes[..i + 1][..i] == outcomes[..i];
      var o := outcomes[i];
      samplings := samplings + [""];
      if o.Kept? {
        rows := rows + [o.row];
        samplings := samplings[..|samplings| - 1] + [o.row.sampling];
      } else if !LeavesSampling(o) {
        samplings := samplings[..|samplings| - 1];
      }
    }
    assert outcomes[..|outcomes|] == outcomes;
  }

  /** How many placeholders the script leaves behind. */
  function StaleCount(outcomes: seq<Outcome>): nat {
    if outcomes == [] then 0
    else StaleCount(outcomes[..|outcomes| - 1]) + (if LeavesSampling(outcomes[|outcomes| - 1]) then 1 else 0)
  }

  /** The column as written is longer than the names column by the placeholders left behind,
      and it is the sampling column of the kept fields when none is left. */
  lemma {:induction false} SamplingColumnAsWrittenShape(outcomes: seq<Outcome>)
    ensures |SamplingColumnAsWritten(outcomes)| == |KeptRows(outcomes)| + StaleCount(outcomes)
    ensures StaleCount(outcomes) == 0 ==> SamplingColumnAsWritten(outcomes) == SamplingColumn(KeptRows(outcomes))
  {
    if outcomes != [] {
      var init := outcomes[..|outcomes| - 1];
      SamplingColumnAsWrittenShape(init);
      if StaleCount(outcomes) == 0 {
        assert StaleCount(init) == 0;
        var last := outcomes[|outcomes| - 1];
        if last.Kept? {
          assert KeptRows(outcomes) == KeptRows(init) + [last.row];
          assert SamplingColumn(KeptRows(outcomes)) == SamplingColumn(KeptRows(init)) + [last.row.sampling];
        }
      }
    }
  }

  /** A field dropped for a short record followed by a kept one: the script writes two sampling
      entries for one field, and the kept field's entry lands second. */
  lemma {:induction false} StaleSamplingExample(row: FieldRow)
    requires row.sampling != ""
    ensures var outcomes := [Skipped(ShortRecord), Kept(row)];
      NameColumn(KeptRows(outcomes)) == [row.name] &&
      SamplingColumnAsWritten(outcomes) == ["", row.sampling] &&
      SamplingColumnAsWritten(outcomes)[0] != SamplingColumn(KeptRows(outcomes))[0]
  {
    var outcomes := [Skipped(ShortRecord), Kept(row)];
    assert outcomes[..1] == [Skipped(ShortRecord)];
    assert [Skipped(ShortRecord)][..0] == [];
  }

  // ---------------------------------------------------------------- probes line

  /** The `sampling_times` and `variable_ids`-style columns of the probes line: a list of the
      kept fields' entries joined with `;`. */
  function ProbeColumn(entries: seq<string>): string {
    Join(entries, ';')
  }

  /** No corrected sampling string holds the separator. */
  lemma {:induction false} SamplingTimeHasNoSeparator(seconds: nat)
    requires SplitDays(seconds).days < 999
    ensures ';' !in SamplingTime(seconds).value
  {
    var e := SplitDays(seconds);
    DaysTextValue(e.days);
    ClockValue(e.clock);
    var d := DaysText(e.days, 10, 100);
    var c := Clock(e.clock);
    SamplingLayout(d, c);
    var t := d + " " + c;
    assert SamplingTime(seconds) == Some(t);
    forall k | 0 <= k < 12
      ensures t[k] != ';'
    {
      if k < 3 {
        assert t[k] == t[..3][k];
      } else if 4 <= k < 6 {
        assert t[k] == c[..2][k - 4];
      } else if 7 <= k < 9 {
        assert t[k] == c[3..5][k - 7];
      } else if 10 <= k {
        assert t[k] == c[6..][k - 10];
      }
    }
  }

  /** With the corrected sampling column, splitting the names and the sampling columns of the
      probes line gives one entry per kept field in both, in the same order. */
  lemma {:induction false} ProbeColumnsAligned(rows: seq<FieldRow>)
    requires rows != []
    requires forall k :: 0 <= k < |rows| ==> ';' !in rows[k].name && ';' !in rows[k].sampling
    ensures Split(ProbeColumn(NameColumn(rows)), ';') == NameColumn(rows)
    ensures Split(ProbeColumn(SamplingColumn(rows)), ';') == SamplingColumn(rows)
  {
    SplitJoin(NameColumn(rows), ';');
    SplitJoin(SamplingColumn(rows), ';');
  }

  // ---------------------------------------------------------------- ids

  /** A row of the devices or organizations table: the header row, whose id cell is `'id'`,
      or an assigned id. */
  datatype Key = Header | Id(n: int)

  datatype Entry = Entry(key: Key, name: string)

  /** The table as the script starts it: the header row alone. */
  function NewTable(): seq<Entry> {
    [Entry(Header, "name")]
  }

  /** The first row with the given name (`np.where(names == name)[0][0]`). */
  function FirstNamed(table: seq<Entry>, name: string): (r: Option<nat>)
    ensures r.None? <==> forall k :: 0 <= k < |table| ==> table[k].name != name
    ensures r.Some? ==> (r.value < |table| && table[r.value].name == name &&
                         forall k :: 0 <= k < r.value ==> table[k].name != name)
  {
    if table == [] then None
    else if table[0].name == name then Some(0)
    else match FirstNamed(table[1..], name)
      case None => None
      case Some(i) => Some(i + 1)
  }

  datatype Assignment = Assignment(table: seq<Entry>, counter: int, key: Key)

  /** A device or organization id: an unseen name gets the counter plus one and a new row; a
      seen name gets the id of its first row. */
  function AssignId(table: seq<Entry>, counter: int, name: string): (a: Assignment)
    ensures exists k :: 0 <= k < |a.table| && a.table[k] == Entry(a.key, name)
    ensures FirstNamed(table, name).None? ==>
      a.table == table + [Entry(Id(counter + 1), name)] && a.counter == counter + 1 && a.key == Id(counter + 1)
    ensures FirstNamed(table, name).Some? ==>
      a.table == table && a.counter == counter && a.key == table[FirstNamed(table, name).value].key
  {
    match FirstNamed(table, name)
    case None =>
      var t := table + [Entry(Id(counter + 1), name)];
      assert t[|table|] == Entry(Id(counter + 1), name);
      Assignment(t, counter + 1, Id(counter + 1))
    case Some(i) => Assignment(table, counter, table[i].key)
  }

  /** Ids assigned so far are at most the counter, and no id or name is repeated. */
  predicate WellNumbered(table: seq<Entry>, counter: int) {
    (forall k :: 0 <= k < |table| && table[k].key.Id? ==> table[k].key.n <= counter) &&
    (forall j, k :: 0 <= j < k < |table| ==> table[j].name != table[k].name) &&
    (forall j, k :: 0 <= j < k < |table| && table[j].key.Id? && table[k].key.Id? ==> table[j].key.n != table[k].key.n)
  }

  /** Assigning keeps the table well numbered; a new name gets an id no other row has. */
  lemma {:induction false} AssignIdKeepsNumbering(table: seq<Entry>, counter: int, name: string)
    requires WellNumbered(table, counter)
    ensures WellNumbered(AssignId(table, counter, name).table, AssignId(table, counter, name).counter)
    ensures FirstNamed(table, name).None? ==>
      forall k :: 0 <= k < |table| ==> table[k].key != AssignId(table, counter, name).key
  {
  }

  /** Asking again for the same name changes nothing and gives the same id. */
  lemma {:induction false} AssignIdStable(table: seq<Entry>, counter: int, name: string)
    ensures var a := AssignId(table, counter, name);
      AssignId(a.table, a.counter, name) == a
  {
    var a := AssignId(table, counter, name);
    if FirstNamed(table, name).None? {
      var i := FirstNamed(a.table, name);
      assert i.Some?;
      assert i.value == |table|;
    }
  }

  /** In a well-numbered table, the id a name gets is the id of its one row. */
  lemma {:induction false} AssignIdIsTheRow(table: seq<Entry>, counter: int, name: string, k: nat)
    requires WellNumbered(table, counter) && k < |table| && table[k].name == name
    ensures AssignId(table, counter, name).key == table[k].key
  {
  }

  /** A device type named like the header column gets the header's id cell. */
  lemma {:induction false} HeaderNameQuirk()
    ensures AssignId(NewTable(), 0, "name").key == Header
  {
  }

  /** A row of the variables table. */
  datatype Variable = Variable(id: int, standardName: string, longName: string, units: string)

  /** A variable is added only when no row has its id. */
  function AddVariable(table: seq<Variable>, v: Variable): (r: seq<Variable>)
    ensures (exists k :: 0 <= k < |table| && table[k].id == v.id) ==> r == table
    ensures (forall k :: 0 <= k < |table| ==> table[k].id != v.id) ==> r == table + [v]
  {
    if exists k :: 0 <= k < |table| && table[k].id == v.id then table else table + [v]
  }

  predicate DistinctVariableIds(table: seq<Variable>) {
    forall j, k :: 0 <= j < k < |table| ==> table[j].id != table[k].id
  }

  /** Adding keeps the ids of the variables table distinct, and the id is then present. */
  lemma {:induction false} AddVariableKeepsIds(table: seq<Variable>, v: Variable)
    requires DistinctVariableIds(table)
    ensures DistinctVariableIds(AddVariable(table, v))
    ensures exists k :: 0 <= k < |AddVariable(table, v)| && AddVariable(table, v)[k].id == v.id
  {
    if forall k :: 0 <= k < |table| ==> table[k].id != v.id {
      assert AddVariable(table, v)[|table|] == v;
    }
  }
}
