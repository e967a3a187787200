# A verified model of the oceanographic time-series post-processing core

The modelled system turns in-situ ocean sensor files (temperature, salinity, currents and
similar) and model output into quality-controlled, depth-levelled and time-averaged time
series for comparing observations with models. This project restates the decision logic of
that pipeline in Dafny and proves what each step promises. The pipeline's steps are:

- the iterative quality check: range, spike and stuck-value tests, then statistical rounds;
- the depth-level resolution and aggregation;
- the time-axis checks (`time_check`, `time_calc`), duplicate removal and record reordering;
- time averaging;
- the catalogue building of the in-situ pre-processing, platform finder and metadata merger;
- file concatenation;
- the observation/model comparison and the model post-processing (vertical interpolation,
  location porting, dataset concatenation).

Conventions used throughout:

- A masked numpy array is a `seq<Option<real>>`, where `None` is a masked element.
- Times are whole seconds since 1970.
- Errors the scripts raise or report before stopping become `Err` values of a `Result`.
- A loop that builds or rewrites state is a `method`. Each such method is proved equal to a
  specification function, and the properties are proved about that function.
- File reading and writing are not modelled. The values a script reads from a file are
  parameters.

| source file | Dafny module(s) |
|---|---|
| SOURCE/obs_postpro/time_series_post_processing.py | `TimeSeriesQC`, `QcIterations`, `SpikeTest` (QcSpike.dfy), `StuckTest` (QcStuck.dfy) |
| SOURCE/obs_postpro/depth_calc.py | `DepthCalc`, `DepthMerge`, `DepthLevels` |
| SOURCE/obs_postpro/depth_aggregator.py | `DepthAggregator`, `DepthLevels` |
| SOURCE/time_check.py, SOURCE/time_calc.py | `TimeCheck`, `TimeCalc`, `Steps` |
| SOURCE/duplicated_records_remover.py | `DuplicatedRecords`, `Records` |
| SOURCE/records_monotonicity_fixer.py | `MonotonicityFixer`, `Records`, `Sorting` |
| SOURCE/obs_postpro/time_averager.py | `TimeAverager`, `AveragerPlan`, `AveragerStep`, `Calendar` |
| SOURCE/obs_postpro/quality_check_applier.py | `QualityCheckApplier` |
| SOURCE/obs_postpro/data_information_calc.py | `DataInformation` |
| SOURCE/obs_postpro/insitu_tac_timeseries_extractor.py | `TimeseriesExtractor` |
| SOURCE/obs_postpro/insitu_tac_platforms_finder.py | `PlatformsFinder` |
| SOURCE/pointwise_datasets_concatenator.py | `PointwiseConcatenator` |
| SOURCE/obs_postpro/metadata_merger.py | `MetadataMerger` |
| SOURCE/obs_postpro/insitu_tac_pre_processing.py | `InsituPreProcessing` |
| SOURCE/obs_postpro/obs_postpro.py | `ObsPostpro` |
| SOURCE/obs_postpro/rejection_statistics.py | `RejectionStatistics` |
| SOURCE/insitu_evaluation.py | `InsituEvaluation`, `Placement` |
| SOURCE/model_postpro/vertical_interpolation.py | `VerticalInterpolation` |
| SOURCE/model_postpro/model_datasets_concatenator.py | `ModelConcatenator`, `Placement` |
| SOURCE/model_postpro/model_postpro.py | `ModelPostpro` |

The shared modules are:

- `Wrappers` (Option, Result);
- `Numerics` (numpy rounding on exact reals);
- `Series` (masks and masked series);
- `Strings` (split, join, integer text);
- `Sorting`;
- `Steps` (consecutive steps and their modal value);
- `Placement` (index maps and fancy-index assignment).

## Model

Each row names a member whose contract states the property. The source cell gives the lines
that member models.

| member | source | states |
|---|---|---|
| Numerics.RoundHalfEven | SOURCE/time_calc.py:45-47 | numpy rounding: the nearest integer, ties going to the even one |
| Numerics.RoundDecimals | SOURCE/obs_postpro/insitu_tac_pre_processing.py:1126 | rounding to a number of decimals stays within half a unit of the last kept decimal |
| Numerics.RoundDecimalsScaled | SOURCE/obs_postpro/rejection_statistics.py:167 | the rounded value times the scale is the whole number nearest to the value times the scale, ties going to the even one, so the result is a whole multiple of the kept decimal |
| Numerics.RoundDecimalsBetween | SOURCE/obs_postpro/rejection_statistics.py:167-173 | rounding a value that lies between two whole numbers keeps it between them |
| Numerics.DaysToSeconds | SOURCE/time_calc.py:45 | a time in days becomes whole seconds within half a second of days times 86400 |
| Numerics.DaysToSecondsOfWholeDays | SOURCE/time_calc.py:45 | whole days become exactly that many times 86400 s |
| Numerics.RoundTo600 | SOURCE/model_postpro/model_datasets_concatenator.py:215 | the nearest multiple of 600 s, within 300 s, and a multiple already is kept |
| Sorting.Sort | SOURCE/model_postpro/model_datasets_concatenator.py:557-558 | the sorted times are in order and are a permutation of the times |
| Sorting.ArgSort | SOURCE/model_postpro/model_datasets_concatenator.py:557-558 | the sort order is a permutation of the indices that reads the times in sorted order |
| Sorting.SortDeterminedByMultiset | SOURCE/model_postpro/model_datasets_concatenator.py:557-558 | the sorted times depend only on the times as a multiset |
| Strings.JoinSplit | SOURCE/obs_postpro/insitu_tac_pre_processing.py:1334-1339 | joining the split parts of a text with the separator gives the text back |
| Strings.SplitJoin | SOURCE/obs_postpro/insitu_tac_pre_processing.py:1334-1339 | splitting a join of separator-free entries gives the entries back |
| Strings.ParseIntUnderscore | SOURCE/obs_postpro/quality_check_applier.py:53 | `int()` reads a single `_` between two digit runs as nothing: the joined literal has the value of its digits |
| Strings.ParseIntSeparatorExample | SOURCE/obs_postpro/quality_check_applier.py:53 | `int('1_0')` is 10 |
| Strings.ParseIntRefusedSeparators | SOURCE/obs_postpro/quality_check_applier.py:53 | a doubled, leading or trailing `_` is a `ValueError` |
| Strings.ParseIntNoBreakSpace | SOURCE/obs_postpro/quality_check_applier.py:53 | a no-break space around a literal is skipped like any Python whitespace: `int('\xa07\xa0')` is 7 |
| Strings.ParseIntOfIntToString | SOURCE/obs_postpro/quality_check_applier.py:53 | reading back `str(n)` with `int()` gives `n` |
| Strings.Lower | SOURCE/obs_postpro/insitu_tac_platforms_finder.py:240-243 | lower-casing keeps the length and maps every character on its own, capital ASCII letters to small ones |
| QcIterations.InitialFlags | SOURCE/obs_postpro/time_series_post_processing.py:266-270 | before iteration 0 every sample is flagged 1 when valid and 4 when missing, one flag series per level |
| QcIterations.NextGood | SOURCE/obs_postpro/time_series_post_processing.py:504-506 | the next good data masks every rejected sample and every sample holding the 1e20 fill value and keeps the rest |
| QcIterations.NextFlags | SOURCE/obs_postpro/time_series_post_processing.py:508-510 | the next flags copy the previous ones and set 4 exactly where the iteration rejects |
| QcIterations.GoodHistory | SOURCE/obs_postpro/time_series_post_processing.py:266-270 | the good-data history holds the start data and one entry per iteration run |
| QcIterations.FlagHistory | SOURCE/obs_postpro/time_series_post_processing.py:266-270 | the flag history holds the initial flags and one entry per iteration run |
| QcIterations.HistoryAt | SOURCE/obs_postpro/time_series_post_processing.py:504-513 | entry k of both histories is the good data and the flags after k iterations |
| QcIterations.StepMonotone | SOURCE/obs_postpro/time_series_post_processing.py:504-513 | in one iteration a flag 4 stays 4, a masked sample stays masked, a still-good sample keeps its value, and a flag changes exactly where the iteration rejects |
| QcIterations.HistoryMonotone | SOURCE/obs_postpro/time_series_post_processing.py:504-513 | over any number of iterations a flag never goes from 4 back to 1 and the masked set only grows |
| QcIterations.FlagsAgree | SOURCE/obs_postpro/time_series_post_processing.py:504-513 | at every iteration each flag is 1 or 4, a still-good sample is flagged 1 and holds its original value, and a sample flagged 1 was valid at the start |
| QcIterations.RejectedStaysFlagged | SOURCE/obs_postpro/time_series_post_processing.py:504-513 | a sample any iteration rejects is flagged 4 and masked in every later iteration |
| SpikeTest.Absorb | SOURCE/obs_postpro/time_series_post_processing.py:391-409 | taking in a masked neighbour leaves the max/min/sum/count accumulator unchanged; a present one raises the count by one and adds its value |
| SpikeTest.Gather | SOURCE/obs_postpro/time_series_post_processing.py:391-409 | the accumulator of a neighbour list after taking its values in order |
| SpikeTest.Neighbours | SOURCE/obs_postpro/time_series_post_processing.py:391-409 | the neighbours at offsets 1 to k of a sample, after then before for each offset, those past either end left out |
| SpikeTest.Spikes | SOURCE/obs_postpro/time_series_post_processing.py:410-418 | the mask has one entry per sample and rejects a sample exactly when the spike criterion holds on its gathered neighbours |
| SpikeTest.AbsorbAfter | SOURCE/obs_postpro/time_series_post_processing.py:392-405 | the in-place update `acc[:-p] = f(acc[:-p], x[p:])` of the accumulators: each sample takes in the neighbour p records after it and nothing else changes |
| SpikeTest.AbsorbBefore | SOURCE/obs_postpro/time_series_post_processing.py:394-407 | the in-place update `acc[p:] = f(acc[p:], x[:-p])`: each sample takes in the neighbour p records before it |
| SpikeTest.GatherStep | SOURCE/obs_postpro/time_series_post_processing.py:391-409 | taking one more offset extends the gathered neighbours by the neighbour after and then the one before |
| SpikeTest.GatheredStep | SOURCE/obs_postpro/time_series_post_processing.py:391-409 | one pass of the offset loop turns the accumulators of k offsets into those of k + 1 offsets for every sample |
| SpikeTest.GatherLevel | SOURCE/obs_postpro/time_series_post_processing.py:383-409 | the accumulator loop over offsets 1..3 leaves every sample with exactly what it gathers from its neighbours at offsets 1..3 |
| SpikeTest.SpikeLevel | SOURCE/obs_postpro/time_series_post_processing.py:381-418 | the spike test of one level returns exactly the spike mask of the specification function |
| SpikeTest.GatherCountSum | SOURCE/obs_postpro/time_series_post_processing.py:401-409 | the gathered count is the number of unmasked neighbours and the sum is their sum |
| SpikeTest.GatherBounds | SOURCE/obs_postpro/time_series_post_processing.py:392-399 | the gathered maximum and minimum exist exactly when some neighbour is present and bound every present neighbour |
| SpikeTest.GatherAttained | SOURCE/obs_postpro/time_series_post_processing.py:392-399 | the gathered maximum and minimum are values of neighbours |
| SpikeTest.MeanBetween | SOURCE/obs_postpro/time_series_post_processing.py:412-415 | the neighbourhood average of a non-empty accumulator lies between its minimum and maximum |
| SpikeTest.NeighboursLength | SOURCE/obs_postpro/time_series_post_processing.py:391-411 | a sample has neighbours at every offset up to k exactly when it is at least k records from both ends |
| SpikeTest.NeighboursAre | SOURCE/obs_postpro/time_series_post_processing.py:391-409 | every gathered neighbour is the sample at an offset 1..k, and every such offset inside the level is gathered |
| SpikeTest.SpikeNeedsSixNeighbours | SOURCE/obs_postpro/time_series_post_processing.py:410-418 | a rejected sample is unmasked, at least three records from both ends, and all six neighbours at offsets ±1..±3 are unmasked (the count must reach 2×3) |
| SpikeTest.SixValidNeighbours | SOURCE/obs_postpro/time_series_post_processing.py:410-411 | a sample whose count reaches six has all six neighbours present |
| SpikeTest.EdgesNeverSpike | SOURCE/obs_postpro/time_series_post_processing.py:410-418 | the first and last three records of a level are never spike-rejected |
| SpikeTest.WithinNeighboursNotSpike | SOURCE/obs_postpro/time_series_post_processing.py:412-418 | a sample within the range of its neighbours is never rejected: |x - mean| > 2 × (max - min) fails |
| SpikeTest.SingleOutlierRejected | SOURCE/obs_postpro/time_series_post_processing.py:412-418 | a constant level with one different value at least three records from both ends has exactly that sample rejected |
| SpikeTest.OutlierIsSpike | SOURCE/obs_postpro/time_series_post_processing.py:412-418 | a sample whose six neighbours all hold another common value is rejected |
| SpikeTest.GatherConstant | SOURCE/obs_postpro/time_series_post_processing.py:391-409 | neighbours that all hold c gather maximum c, minimum c and sum count × c |
| StuckTest.Raw | SOURCE/obs_postpro/time_series_post_processing.py:436-437 | a masked sample reads as the 1e20 fill value in the raw data |
| StuckTest.WithoutFill | SOURCE/obs_postpro/time_series_post_processing.py:438-443 | the raw values with the fill value deleted, and nothing else |
| StuckTest.Values | SOURCE/obs_postpro/time_series_post_processing.py:436-443 | the distinct raw values of the level other than the fill value, strictly increasing |
| StuckTest.Counts | SOURCE/obs_postpro/time_series_post_processing.py:436-443 | the count of each distinct value is its number of occurrences in the raw level |
| StuckTest.WindowMaxima | SOURCE/obs_postpro/time_series_post_processing.py:446-451 | one neighbourhood maximum per distinct value |
| StuckTest.MaxAfter | SOURCE/obs_postpro/time_series_post_processing.py:448-449 | `m[:-p] = maximum(m[:-p], c[p:])`: each entry raised to the count p places after it |
| StuckTest.MaxBefore | SOURCE/obs_postpro/time_series_post_processing.py:450-451 | `m[p:] = maximum(m[p:], c[:-p])`: each entry raised to the count p places before it |
| StuckTest.RaiseAfter | SOURCE/obs_postpro/time_series_post_processing.py:448-449 | the in-place array update leaves the array equal to MaxAfter of its old contents |
| StuckTest.RaiseBefore | SOURCE/obs_postpro/time_series_post_processing.py:450-451 | the in-place array update leaves the array equal to MaxBefore of its old contents |
| StuckTest.WindowMaximaStep | SOURCE/obs_postpro/time_series_post_processing.py:447-451 | one pass of the offset loop extends every neighbourhood by the offsets p after and before |
| StuckTest.NeighbourhoodMaxima | SOURCE/obs_postpro/time_series_post_processing.py:446-451 | the loop over offsets 1..100 from zeros yields the largest count within 100 places on either side of each distinct value |
| StuckTest.StuckOf | SOURCE/obs_postpro/time_series_post_processing.py:452-455 | a value is listed exactly when it is a distinct value whose count is stuck |
| StuckTest.StuckMask | SOURCE/obs_postpro/time_series_post_processing.py:456-463 | one entry per sample: the samples whose raw value is a stuck value |
| StuckTest.Matching | SOURCE/obs_postpro/time_series_post_processing.py:462-463 | `np.any(data == stuck_values)`: a sample is marked exactly when its raw value is in the list |
| StuckTest.StuckLevel | SOURCE/obs_postpro/time_series_post_processing.py:433-463 | the stuck-value test of one level returns exactly the specification mask, the ISPRA 20.0 appended only when present and not already stuck |
| StuckTest.WindowMaxBounds | SOURCE/obs_postpro/time_series_post_processing.py:446-451 | the neighbourhood maximum bounds every count within k places and is zero or one of those counts |
| StuckTest.StuckIff | SOURCE/obs_postpro/time_series_post_processing.py:452-454 | a distinct value is stuck iff its count exceeds 100 and exceeds five times the count of every distinct value within 100 places |
| StuckTest.StuckMaskIff | SOURCE/obs_postpro/time_series_post_processing.py:436-463 | a sample is rejected iff it is unmasked, not the fill value, and its value is stuck or is 20.0 under the ISPRA rule |
| StuckTest.IspraValueRejected | SOURCE/obs_postpro/time_series_post_processing.py:457-458 | under the ISPRA rule every sample holding 20.0 is rejected whatever its count |
| StuckTest.StuckNeedsCount | SOURCE/obs_postpro/time_series_post_processing.py:452-463 | a rejected sample is unmasked, and outside the ISPRA rule its value occurs more than 100 times in the level |
| TimeSeriesQC.RangeLimits | SOURCE/obs_postpro/time_series_post_processing.py:206-221 | salinity has limits [5, 41], temperature [4, 32], and no other name has any |
| TimeSeriesQC.RangeMask | SOURCE/obs_postpro/time_series_post_processing.py:365-368 | one entry per sample of the range-check mask |
| TimeSeriesQC.RangeMaskIff | SOURCE/obs_postpro/time_series_post_processing.py:361-368 | a sample is range-rejected iff limits exist, it is unmasked and strictly below the minimum or strictly above the maximum; missing samples are filled with the minimum and never rejected |
| TimeSeriesQC.MaskWhere | SOURCE/obs_postpro/time_series_post_processing.py:377 | the samples under the rejection mask are masked and the others kept |
| TimeSeriesQC.IspraRuleAsWritten | SOURCE/obs_postpro/time_series_post_processing.py:258-264 | without an institution attribute the substring test raises; with one it is the ISPRA rule |
| TimeSeriesQC.NoInstitutionFails | SOURCE/obs_postpro/time_series_post_processing.py:258-264 | any series without an institution, of any variable, stops with an error rather than being read as not ISPRA |
| TimeSeriesQC.IspraRule | SOURCE/obs_postpro/time_series_post_processing.py:262-264 | the 20.0 rule applies iff the institution contains "ISPRA" as a substring and the variable is sea_water_temperature |
| TimeSeriesQC.CheckLimits | SOURCE/obs_postpro/time_series_post_processing.py:206-221 | the range check runs iff it is enabled and the variable has tuned limits, and then with those limits |
| TimeSeriesQC.Union | SOURCE/obs_postpro/time_series_post_processing.py:376-473 | a sample is rejected iff one of the three test masks rejects it |
| TimeSeriesQC.GrossTestsRejectPresent | SOURCE/obs_postpro/time_series_post_processing.py:361-472 | the range, spike and stuck-value tests each reject only unmasked samples |
| TimeSeriesQC.GrossRejectsPresent | SOURCE/obs_postpro/time_series_post_processing.py:361-472 | a sample the gross check rejects is unmasked and rejected by an enabled test: out of range, a spike of the range-checked data, or stuck |
| TimeSeriesQC.GrossDisabled | SOURCE/obs_postpro/time_series_post_processing.py:361-431 | with all three toggles off the gross check rejects nothing |
| TimeSeriesQC.GrossCheck | SOURCE/obs_postpro/time_series_post_processing.py:360-475 | iteration 0 returns, level by level, the union of the enabled range, spike and stuck-value masks of the specification |
| TimeSeriesQC.SpikeCheck | SOURCE/obs_postpro/time_series_post_processing.py:381-418 | every level's spike mask is the specification's |
| TimeSeriesQC.StuckCheck | SOURCE/obs_postpro/time_series_post_processing.py:431-463 | the mask starts all false and each level is overwritten with its stuck-value mask |
| TimeSeriesQC.MonthMask | SOURCE/obs_postpro/time_series_post_processing.py:203-205 | the records whose calendar month is m |
| TimeSeriesQC.EvidenceMask | SOURCE/obs_postpro/time_series_post_processing.py:485-491 | starting all true, a sample ends true iff its month holds valid count × sampling seconds / 86400 ≥ 15 at its level |
| TimeSeriesQC.DensityOf | SOURCE/obs_postpro/time_series_post_processing.py:354-359 | the density read for a sample is present iff the sample is unmasked and its interpolated density is on the grid |
| TimeSeriesQC.StatLevel | SOURCE/obs_postpro/time_series_post_processing.py:483-495 | one entry per sample of the statistical rejection mask |
| TimeSeriesQC.StatCheckLevel | SOURCE/obs_postpro/time_series_post_processing.py:483-495 | one level's statistical check returns exactly the specification mask: density < 0.05 × 0.1 in a month with enough evidence |
| TimeSeriesQC.StatCheck | SOURCE/obs_postpro/time_series_post_processing.py:476-500 | every level's statistical rejection is the specification's |
| TimeSeriesQC.StatNeedsEvidence | SOURCE/obs_postpro/time_series_post_processing.py:483-495 | a statistically rejected sample is unmasked with density present and below 0.005, the sampling time is positive and its month spans at least 15 days of records |
| TimeSeriesQC.GrossRejections | SOURCE/obs_postpro/time_series_post_processing.py:360-475 | one gross mask per level, as long as the level |
| TimeSeriesQC.Fit | SOURCE/obs_postpro/time_series_post_processing.py:267 | a mask brought to the shape of the data, false outside the given masks |
| TimeSeriesQC.FitShaped | SOURCE/obs_postpro/time_series_post_processing.py:267 | a mask of the data's shape is left unchanged |
| TimeSeriesQC.Rejections | SOURCE/obs_postpro/time_series_post_processing.py:360-500 | iteration 0 rejects with the gross check and later iterations with the statistical check, one mask per level |
| TimeSeriesQC.IterationTests | SOURCE/obs_postpro/time_series_post_processing.py:266-500 | the tests of every iteration preserve the shape of the data |
| TimeSeriesQC.QualityCheck | SOURCE/obs_postpro/time_series_post_processing.py:189-513 | all-missing data gives no output; otherwise a missing institution raises, and a run that completes has the good-data and flag histories of iterations 0..N that the specification gives |
| TimeSeriesQC.Advance | SOURCE/obs_postpro/time_series_post_processing.py:266-513 | one pass of the iteration loop appends the good data and flags after iteration k to the histories |
| TimeSeriesQC.Iterate | SOURCE/obs_postpro/time_series_post_processing.py:266-513 | one iteration masks and flags 4 exactly the samples its tests reject on the previous good data |
| TimeSeriesQC.GrossRejectedFlagged | SOURCE/obs_postpro/time_series_post_processing.py:360-513 | every sample the gross check rejects is flagged 4 and masked after every later iteration |
| TimeSeriesQC.StatRejectedFlagged | SOURCE/obs_postpro/time_series_post_processing.py:483-513 | every sample a statistical iteration rejects is flagged 4 and masked from then on |
| TimeSeriesQC.GrossOnlyFlags | SOURCE/obs_postpro/time_series_post_processing.py:266-513 | after iteration 0 a flag is 4 iff the sample was missing or the gross check rejected it, and 1 otherwise |
| TimeSeriesQC.ValidCount | SOURCE/obs_postpro/time_series_post_processing.py:224-225 | the number of unmasked samples never exceeds the number of samples |
| TimeSeriesQC.GrossTestMasks | SOURCE/obs_postpro/time_series_post_processing.py:361-472 | one mask per level and sample for each gross test |
| TimeSeriesQC.Statistics | SOURCE/obs_postpro/time_series_post_processing.py:224-496 | the counters hold one statistic per statistical iteration, a range count iff the range check ran, a spike or stuck count iff that test is enabled, and filled + valid = total |
| TimeSeriesQC.RejectedAtMostValid | SOURCE/obs_postpro/time_series_post_processing.py:369-370 | a mask that rejects only unmasked samples counts at most the unmasked samples |
| TimeSeriesQC.StatisticsBounds | SOURCE/obs_postpro/time_series_post_processing.py:224-496 | filled ≤ total, each gross count ≤ total − filled, and each statistical count ≤ the samples still good when that iteration starts |
| TimeSeriesQC.RoundFrequencyFiner | SOURCE/obs_postpro/time_series_post_processing.py:116-134 | the rounding resolution chosen for a sampling time is at least ten times finer than it and never finer for a longer sampling time |
| TimeSeriesQC.MonthlyMeanFacts | SOURCE/obs_postpro/time_series_post_processing.py:280-283 | a month's mean is present iff the month holds a good sample at that level, and equals c when every such sample holds c |
| TimeSeriesQC.MonthlyClimatology | SOURCE/obs_postpro/time_series_post_processing.py:276-283 | a 12 × depth table whose entry (m, d) is the mean of the good samples of level d in month m + 1, masked when there is none |
| TimeSeriesQC.NoRejections | SOURCE/obs_postpro/time_series_post_processing.py:360-475 | a disabled test rejects no sample of the level |
| TimeSeriesQC.GrossLevel | SOURCE/obs_postpro/time_series_post_processing.py:360-475 | one gross verdict per sample of the level |
| TimeSeriesQC.RangeRejections | SOURCE/obs_postpro/time_series_post_processing.py:361-380 | one range verdict per sample |
| TimeSeriesQC.SpikeRejections | SOURCE/obs_postpro/time_series_post_processing.py:381-430 | one spike verdict per sample |
| TimeSeriesQC.StuckRejections | SOURCE/obs_postpro/time_series_post_processing.py:431-472 | one stuck-value verdict per sample |
| TimeSeriesQC.GrossRejectionsAt | SOURCE/obs_postpro/time_series_post_processing.py:360-475 | every level's gross mask is that level's union of the enabled tests, with the stuck-value rule chosen by institution and field |
| TimeSeriesQC.StatLevelOf | SOURCE/obs_postpro/time_series_post_processing.py:483-495 | one statistical verdict per sample of the level |
| TimeSeriesQC.GrossCountsBounded | SOURCE/obs_postpro/time_series_post_processing.py:369-472 | a gross test never counts more rejections than unmasked samples |
| TimeSeriesQC.StatisticCountBounded | SOURCE/obs_postpro/time_series_post_processing.py:483-496 | a statistical iteration never counts more rejections than the samples still good when it starts |
| DepthMerge.WithoutFill | SOURCE/obs_postpro/depth_calc.py:70-72 | dropping the entries within a tenth of the 1e20 fill value keeps an increasing sequence and keeps exactly the non-fill values |
| DepthMerge.Occurrences | SOURCE/obs_postpro/depth_calc.py:70 | the number of times a depth occurs in the field is positive exactly when the depth occurs |
| DepthMerge.Candidates | SOURCE/obs_postpro/depth_calc.py:70-72 | the candidate depths are strictly increasing and are exactly the non-fill depths of the field |
| DepthMerge.Counts | SOURCE/obs_postpro/depth_calc.py:70-71 | one count per candidate depth, equal to how often it occurs in the field |
| DepthMerge.CandidatesWeighted | SOURCE/obs_postpro/depth_calc.py:70-72 | the candidates are increasing and each has a positive count, which is what the weighted averages need |
| DepthMerge.GoodSpacing | SOURCE/obs_postpro/depth_calc.py:80-86 | the spacing loop reports good spacing exactly when every step between neighbours is at least 0.5 m and at least 5% of the lower depth |
| DepthMerge.ApartFrom | SOURCE/obs_postpro/depth_calc.py:80-86 | in a well-spaced increasing sequence two candidates j - i places apart differ by at least 0.5 m times j - i |
| DepthMerge.GoodSpacedApart | SOURCE/obs_postpro/depth_calc.py:80-86 | in a well-spaced sequence any two candidates are at least 0.5 m apart |
| DepthMerge.SumBounds | SOURCE/obs_postpro/depth_calc.py:102-103 | the count-weighted sum of a run lies between its first and last depth times the positive total weight |
| DepthMerge.Average | SOURCE/obs_postpro/depth_calc.py:102-103 | the count-weighted average of a run lies between the run's first and last depth |
| DepthMerge.AverageGrows | SOURCE/obs_postpro/depth_calc.py:101-103 | extending a run by one deeper candidate never lowers its weighted average |
| DepthMerge.RunEnd | SOURCE/obs_postpro/depth_calc.py:101-106 | the inner scan stops at the first candidate far enough from the run start, or at the last candidate, and no candidate before the stop closes the run |
| DepthMerge.MergeFromBounds | SOURCE/obs_postpro/depth_calc.py:99-108 | the merged levels are strictly increasing, fewer than the candidates, and each lies between the start candidate and strictly below the last candidate |
| DepthMerge.RunStartInWindow | SOURCE/obs_postpro/depth_calc.py:101-106 | the first candidate of a run lies within the averaging window of the level the run produces |
| DepthMerge.MergeFromInWindow | SOURCE/obs_postpro/depth_calc.py:99-108 | every merged level has some candidate depth within its averaging window |
| DepthMerge.Merge | SOURCE/obs_postpro/depth_calc.py:98-108 | the while loop produces exactly the merged level sequence of the specification function |
| DepthMerge.MergeStep | SOURCE/obs_postpro/depth_calc.py:99-108 | one pass of the while loop appends the run's average and restarts at the run's end |
| DepthMerge.ScanRun | SOURCE/obs_postpro/depth_calc.py:101-106 | the for loop returns the run's end and the weighted average of the run before it |
| DepthMerge.MergeDropsLastCandidate | SOURCE/obs_postpro/depth_calc.py:99-108 | for candidates 1, 1.01, 1.02 and 50 the merge returns only 1.01: the deepest candidate never starts a run and is lost |
| DepthLevels.Window | SOURCE/obs_postpro/depth_calc.py:133-135 | the half-width of a level's window is at least 0.5 m and at least 5% of the level's magnitude, each widened by the 20% tolerance |
| DepthLevels.LevelInOwnWindow | SOURCE/obs_postpro/depth_calc.py:133-135 | a level always lies in its own window |
| DepthLevels.FirstLevel | SOURCE/obs_postpro/depth_calc.py:132-140 | the first level (in order) whose window holds a depth, or the number of levels when none does |
| DepthLevels.FirstLevelPrefix | SOURCE/obs_postpro/depth_calc.py:132-140 | among the first k levels the first one holding a depth is the same as among all levels |
| DepthLevels.WindowRow | SOURCE/obs_postpro/depth_calc.py:137-138 | the masked copy of a record keeping only the samples whose depth lies in the window |
| DepthLevels.Consume | SOURCE/obs_postpro/depth_calc.py:140-152 | after a level is used every sample in its window is masked and all other samples are unchanged |
| DepthLevels.Consumed | SOURCE/obs_postpro/depth_calc.py:132-152 | the working data after a sequence of levels keeps its shape |
| DepthLevels.ConsumedCell | SOURCE/obs_postpro/depth_calc.py:132-152 | after a sequence of levels a sample is masked exactly when some level's window holds its depth, and otherwise keeps its value |
| DepthLevels.Owned | SOURCE/obs_postpro/depth_calc.py:132-152 | the samples level k sees: those whose first covering level is k |
| DepthLevels.LevelMeans | SOURCE/obs_postpro/depth_calc.py:137-139 | the mean over depth of each record's samples in the window, masked when the window holds none |
| DepthLevels.MeansAt | SOURCE/obs_postpro/depth_calc.py:132-139 | the per-record means of level k, taken after all earlier levels have consumed their samples |
| DepthLevels.MeansAtOwned | SOURCE/obs_postpro/depth_calc.py:132-152 | the means level k computes are the means of exactly the samples whose first covering level is k |
| DepthCalc.Rows | SOURCE/obs_postpro/depth_calc.py:48-57 | the depth field as one row of depths per record; a time-varying field is kept as it is |
| DepthCalc.FlattenCovers | SOURCE/obs_postpro/depth_calc.py:70 | every depth of every row occurs in the flattened field |
| DepthCalc.RowsCovered | SOURCE/obs_postpro/depth_calc.py:70 | every depth a record uses occurs in the flattened field the candidates are taken from |
| DepthCalc.CheckVariables | SOURCE/obs_postpro/depth_calc.py:117-119 | the checked variables are a subsequence of the file's variables |
| DepthCalc.CheckVariablesMembers | SOURCE/obs_postpro/depth_calc.py:117-119 | a variable is checked exactly when it has the time dimension and is not lon, lat, depth or time |
| DepthCalc.CheckedData | SOURCE/obs_postpro/depth_calc.py:117-127 | one data matrix per checked variable |
| DepthCalc.Column | SOURCE/obs_postpro/depth_calc.py:61-62 | the depth column j across all records |
| DepthCalc.DistinctValuesConstant | SOURCE/obs_postpro/depth_calc.py:61-64 | a column has more than one distinct value exactly when it is not constant |
| DepthCalc.DepthIsConstant | SOURCE/obs_postpro/depth_calc.py:59-65 | the loop reports a constant field exactly when every depth column holds a single value (always for a one-dimensional field) |
| DepthCalc.Resolved | SOURCE/obs_postpro/depth_calc.py:91-108 | the resolved levels are strictly increasing |
| DepthCalc.ResolvedSampled | SOURCE/obs_postpro/depth_calc.py:91-108 | every resolved level has a field depth within its window |
| DepthCalc.ResolvedMerged | SOURCE/obs_postpro/depth_calc.py:91-108 | when the candidates are not well spaced there are fewer levels than candidates and all lie below the deepest candidate |
| DepthCalc.Passes | SOURCE/obs_postpro/depth_calc.py:132-161 | one verdict per level, saying whether the level's window holds samples and at least 1% of the record means are present |
| DepthCalc.AllUpToAll | SOURCE/obs_postpro/depth_calc.py:132-161 | the first k verdicts all pass exactly when each of them passes |
| DepthCalc.ConsumedStep | SOURCE/obs_postpro/depth_calc.py:132-152 | consuming one more level is consuming the working data of the previous levels in that level's window |
| DepthCalc.FirstPassVariable | SOURCE/obs_postpro/depth_calc.py:126-161 | the level loop of one variable reports good exactly when every level passes with the data consumed by the earlier levels |
| DepthCalc.FirstPass | SOURCE/obs_postpro/depth_calc.py:121-161 | the first pass reports good levels exactly when every checked variable passes every level, stopping at the first failure |
| DepthCalc.FillWindow | SOURCE/obs_postpro/depth_calc.py:140-142 | writing the 1e20 fill value into a window replaces exactly the samples whose depth lies in it |
| DepthCalc.ConsumeAsWritten | SOURCE/obs_postpro/depth_calc.py:140-146 | the as-written consumption: a variable with no mask gets fill values instead of masked samples |
| DepthCalc.ConsumedAsWritten | SOURCE/obs_postpro/depth_calc.py:132-146 | the as-written consumption over a sequence of levels keeps the shape |
| DepthCalc.ExampleWindows | SOURCE/obs_postpro/depth_calc.py:133-135 | which of the depths 10, 10.55 and 30 fall in the windows of the levels 10, 10.55 and 30 |
| DepthCalc.ExampleConsumed | SOURCE/obs_postpro/depth_calc.py:140-146 | on one record, consuming level 10 masks the first two samples, while filling writes 1e20 there and a second fill changes nothing |
| DepthCalc.ExampleNotMasked | SOURCE/obs_postpro/depth_calc.py:128-131 | data carrying fill values but no mask counts as unmasked |
| DepthCalc.ExampleLeftEmpty | SOURCE/obs_postpro/depth_calc.py:137-139 | once level 10 has consumed its samples, level 10.55 sees no present sample |
| DepthCalc.UnmaskedVariableConsumesNothing | SOURCE/obs_postpro/depth_calc.py:128-157 | for one unmasked record at depths 10, 10.55 and 30 the code as written passes every level while the intended consumption fails level 10.55 |
| DepthCalc.NatMax | SOURCE/obs_postpro/depth_calc.py:202-204 | the larger of two counts |
| DepthCalc.LevelCounts | SOURCE/obs_postpro/depth_calc.py:188-204 | one present-mean count per level for one variable |
| DepthCalc.LevelCountsHead | SOURCE/obs_postpro/depth_calc.py:188-204 | the count of the first level is taken on the unconsumed data and the later ones on the data the first level consumed |
| DepthCalc.ConsumedFront | SOURCE/obs_postpro/depth_calc.py:188-201 | consuming a prefix of levels is consuming the first level and then the rest |
| DepthCalc.LevelCountsAt | SOURCE/obs_postpro/depth_calc.py:188-204 | the count of level k is the number of present means level k computes after the earlier levels consumed theirs |
| DepthCalc.Table | SOURCE/obs_postpro/depth_calc.py:178-204 | one row of level counts per checked variable |
| DepthCalc.ColumnMaxBounds | SOURCE/obs_postpro/depth_calc.py:202-204 | the running maximum of a level is at least every variable's count |
| DepthCalc.ColumnMaxAttained | SOURCE/obs_postpro/depth_calc.py:176-204 | the maximum is 0 without variables and is otherwise some variable's count |
| DepthCalc.ColumnMaxStep | SOURCE/obs_postpro/depth_calc.py:202-204 | one more variable raises the maximum to that variable's count when it is larger |
| DepthCalc.BestBounds | SOURCE/obs_postpro/depth_calc.py:176-204 | the best count of a level is at least the count of every variable |
| DepthCalc.BestAttained | SOURCE/obs_postpro/depth_calc.py:176-204 | the best count of a level is 0 without variables and otherwise the count of some variable |
| DepthCalc.BestCounts | SOURCE/obs_postpro/depth_calc.py:176-204 | one best count per level |
| DepthCalc.SomeWindowStep | SOURCE/obs_postpro/depth_calc.py:188-195 | a mean is computed for the first k + 1 levels exactly when one was for the first k or level k's window holds a depth |
| DepthCalc.EmptyWindow | SOURCE/obs_postpro/depth_calc.py:189-192 | a level whose window holds no depth consumes nothing and has no present mean |
| DepthCalc.CountStep | SOURCE/obs_postpro/depth_calc.py:188-204 | the counts of a level list are the first level's count (0 when its window is empty) followed by the counts of the rest on the consumed data |
| DepthCalc.VariableCounts | SOURCE/obs_postpro/depth_calc.py:179-204 | the level loop of one variable returns exactly its level counts and whether any mean was computed |
| DepthCalc.RaiseBest | SOURCE/obs_postpro/depth_calc.py:202-204 | each running best count becomes the larger of itself and the variable's count, in place |
| DepthCalc.SecondPass | SOURCE/obs_postpro/depth_calc.py:176-204 | the second pass returns the best count of every level over all variables and whether any mean was computed |
| DepthCalc.TableStep | SOURCE/obs_postpro/depth_calc.py:178-204 | raising the running maxima by one variable's counts gives the maxima over one more variable |
| DepthCalc.BestCountsColumns | SOURCE/obs_postpro/depth_calc.py:176-204 | the column maxima of the count table are the best counts |
| DepthCalc.Sufficient | SOURCE/obs_postpro/depth_calc.py:224-229 | a level is kept exactly when its best count reaches 1% of the records |
| DepthCalc.KeepSufficient | SOURCE/obs_postpro/depth_calc.py:223-229 | the filter loop keeps, in order, exactly the levels whose best count reaches 1% of the records |
| DepthCalc.SufficientLevelsFilter | SOURCE/obs_postpro/depth_calc.py:217-229 | when the first pass fails, a level is kept exactly when some variable has at least 1% present means there |
| DepthCalc.SelectIncreasing | SOURCE/obs_postpro/depth_calc.py:223-229 | filtering an increasing level sequence keeps it increasing |
| DepthCalc.DepthIsPositive | SOURCE/obs_postpro/depth_calc.py:166-171 | the loop reports positive exactly when no resolved level is negative |
| DepthCalc.NonNegative | SOURCE/obs_postpro/depth_calc.py:245-249 | one verdict per level, true exactly for the levels that are not negative |
| DepthCalc.DropNegative | SOURCE/obs_postpro/depth_calc.py:244-249 | the loop keeps exactly the non-negative levels, in order |
| DepthCalc.Rounded | SOURCE/obs_postpro/depth_calc.py:295 | rounding to one decimal moves each level by at most 0.05 m |
| DepthCalc.Resolve | SOURCE/obs_postpro/depth_calc.py:48-53 | a file without a depth variable is a surface dataset: all four switches true and the single level 0 |
| DepthCalc.OutcomeFails | SOURCE/obs_postpro/depth_calc.py:205-229 | the run fails exactly when there are levels, no checked variable and verbose output: no mean was ever computed, and the percentage print reads it |
| DepthCalc.FinalLevels | SOURCE/obs_postpro/depth_calc.py:217-255 | the output levels are strictly increasing and each has a field depth within its window |
| DepthCalc.SeaLevelsNonNegative | SOURCE/obs_postpro/depth_calc.py:239-255 | for a sea water or surface variable no output level is negative, before or after rounding |
| DepthCalc.ResolveLevels | SOURCE/obs_postpro/depth_calc.py:70-108 | candidate extraction, the spacing check and the merge return the resolved levels and the spacing switch |
| DepthCalc.FilterLevels | SOURCE/obs_postpro/depth_calc.py:217-255 | the sufficiency filter runs only when the first pass failed, then the sign handling is applied |
| DepthCalc.OutcomeOfParts | SOURCE/obs_postpro/depth_calc.py:48-295 | the result assembled from the four switches and the rounded, filtered levels, or the failure |
| DepthCalc.RunLevels | SOURCE/obs_postpro/depth_calc.py:59-295 | the procedure on a depth field returns the outcome of the specification, whose first pass follows the intended level filter |
| DepthCalc.Run | SOURCE/obs_postpro/depth_calc.py:25-295 | the whole depth calculation on a file returns the result of the specification, whose first pass follows the intended level filter |
| DepthAggregator.Columns | SOURCE/obs_postpro/depth_aggregator.py:227-239 | one variable on the levels: one value per record and level |
| DepthAggregator.ColumnsOwned | SOURCE/obs_postpro/depth_aggregator.py:230-239 | the value of level k at a record is the mean of the samples whose first covering level is k, and is masked exactly when no such sample is present |
| DepthAggregator.AppendColumn | SOURCE/obs_postpro/depth_aggregator.py:237 | appending a column adds one value at the end of every record |
| DepthAggregator.ColumnsStep | SOURCE/obs_postpro/depth_aggregator.py:230-239 | one more level appends that level's means, taken on the data the earlier levels left |
| DepthAggregator.AggregateLevels | SOURCE/obs_postpro/depth_aggregator.py:227-239 | the level loop builds exactly the level columns of the specification function |
| DepthAggregator.Pick | SOURCE/obs_postpro/depth_aggregator.py:139-148 | selecting records by index keeps the times, depths and variable records at those indices, in that order |
| DepthAggregator.Kept | SOURCE/obs_postpro/depth_aggregator.py:119-139 | the kept record indices are increasing, each record is inside the cut, and none is kept exactly when no record is inside the cut |
| DepthAggregator.AllColumns | SOURCE/obs_postpro/depth_aggregator.py:214-239 | every variable averaged onto the levels |
| DepthAggregator.Output | SOURCE/obs_postpro/depth_aggregator.py:170-239 | the output holds one aggregated variable per input variable |
| DepthAggregator.Aggregate | SOURCE/obs_postpro/depth_aggregator.py:119-239 | the aggregation stops exactly when no record lies in the period; otherwise the depth axis is the given levels and every variable is kept |
| DepthAggregator.AggregateShape | SOURCE/obs_postpro/depth_aggregator.py:214-245 | every output variable has one row per kept record and one value per level |
| DepthAggregator.KeptTimes | SOURCE/obs_postpro/depth_aggregator.py:119-139 | the selected times are exactly the input times inside the cut |
| DepthAggregator.AggregateTimes | SOURCE/obs_postpro/depth_aggregator.py:170-182 | the output times are exactly the input times inside the cut |
| DepthAggregator.AggregateValues | SOURCE/obs_postpro/depth_aggregator.py:224-239 | output record t is input record keep[t], and its value at level k is the mean of the samples whose first covering level is k |
| DepthAggregator.AggregateFixedPosition | SOURCE/obs_postpro/depth_aggregator.py:183-185 | a platform that never moves gets its own position, rounded to two decimals |
| DepthAggregator.AggregateVariables | SOURCE/obs_postpro/depth_aggregator.py:217-239 | the variable loop returns every variable averaged onto the levels |
| DepthAggregator.AggregateProfile | SOURCE/obs_postpro/depth_aggregator.py:119-239 | the procedure returns exactly the specified aggregation or the empty-period stop |
| Calendar.DaysInMonth | SOURCE/obs_postpro/time_averager.py:60-62 | a Gregorian month has 28 to 31 days |
| Calendar.RoundDown | SOURCE/obs_postpro/time_averager.py:28-55 | truncating a date-time to a year, month, day, hour, minute or second start keeps it valid and aligned to that unit |
| Calendar.RoundDownNotAfter | SOURCE/obs_postpro/time_averager.py:28-55 | the truncated date-time is never later than the original |
| Calendar.RoundDownOfAligned | SOURCE/obs_postpro/time_averager.py:28-55 | a date-time already aligned to the unit is left as it is |
| Calendar.RoundDownIdempotent | SOURCE/obs_postpro/time_averager.py:28-55 | truncating twice is truncating once |
| Calendar.RoundDownGreatest | SOURCE/obs_postpro/time_averager.py:28-55 | the truncation is the latest aligned date-time not after the original |
| Calendar.NextYear | SOURCE/obs_postpro/time_averager.py:59-60 | adding one year to a year start gives the next year start, same time of day |
| Calendar.NextMonth | SOURCE/obs_postpro/time_averager.py:61-62 | adding one month to a month start gives the next month start, same time of day |
| Calendar.NextDay | SOURCE/obs_postpro/time_averager.py:63-64 | adding one day gives a later date at the same time of day |
| Calendar.NextHour | SOURCE/obs_postpro/time_averager.py:65-66 | adding one hour gives a later date-time with the same minute and second |
| Calendar.NextMinute | SOURCE/obs_postpro/time_averager.py:67-68 | adding one minute gives a later date-time with the same second |
| Calendar.NextSecond | SOURCE/obs_postpro/time_averager.py:69-70 | adding one second gives a strictly later valid date-time |
| Calendar.AddUnit | SOURCE/obs_postpro/time_averager.py:58-70 | adding one unit to an aligned date-time gives a later date-time aligned to the same unit |
| Calendar.RoundUp | SOURCE/obs_postpro/time_averager.py:58-70 | the rounded-up date-time is valid and aligned to the unit |
| Calendar.RoundUpAfter | SOURCE/obs_postpro/time_averager.py:58-70 | a date-time lies in the half-open unit interval from its truncation to its round-up |
| Calendar.RoundUpLater | SOURCE/obs_postpro/time_averager.py:78-82 | the round-up of the last stamp is strictly later in epoch seconds, so the last weight is positive |
| Calendar.MonthsFillYear | SOURCE/obs_postpro/time_averager.py:59-62 | the days of the twelve months add up to the days of the year |
| Calendar.DaysBeforeMonth | SOURCE/obs_postpro/time_averager.py:82 | the days before a month of a year are never negative |
| Calendar.TimeOfDay | SOURCE/obs_postpro/time_averager.py:82 | the seconds since midnight are in 0 to 86399 |
| Calendar.DaysBeforeNextYear | SOURCE/obs_postpro/time_averager.py:82 | the day count of the next year start is this year's plus the days of this year |
| Calendar.DaysBeforeYearMonotone | SOURCE/obs_postpro/time_averager.py:82 | a later year starts at least a whole year of days later |
| Calendar.DaysBeforeMonthMonotone | SOURCE/obs_postpro/time_averager.py:82 | a later month of the same year starts at least a whole month of days later |
| Calendar.DayNumberMonotone | SOURCE/obs_postpro/time_averager.py:82 | a strictly later date has a strictly larger day number |
| Calendar.EpochSecondsMonotone | SOURCE/obs_postpro/time_averager.py:82 | a strictly later date-time has strictly more epoch seconds |
| Calendar.NextDaySeconds | SOURCE/obs_postpro/time_averager.py:63-64 | one day later is 86400 epoch seconds later |
| Calendar.UnitSeconds | SOURCE/obs_postpro/time_averager.py:63-70 | a day, hour, minute or second unit is a positive number of seconds |
| Calendar.AddUnitSeconds | SOURCE/obs_postpro/time_averager.py:63-70 | adding a fixed-length unit adds exactly its length in epoch seconds |
| Calendar.NextHourSeconds | SOURCE/obs_postpro/time_averager.py:65-66 | one hour later is 3600 epoch seconds later |
| Calendar.NextMinuteSeconds | SOURCE/obs_postpro/time_averager.py:67-68 | one minute later is 60 epoch seconds later |
| Calendar.NextSecondSeconds | SOURCE/obs_postpro/time_averager.py:69-70 | one second later is one epoch second later |
| Steps.Diffs | SOURCE/time_calc.py:51 | the consecutive differences of a time axis, one fewer than the times |
| Steps.DiffsOfSorted | SOURCE/time_calc.py:50-51 | the steps of a sorted axis are never negative |
| Steps.DiffsAllZero | SOURCE/time_calc.py:51-56 | every step is zero exactly when every time equals its predecessor |
| Steps.Dedup | SOURCE/time_calc.py:52 | removing repeats from a sorted sequence gives a strictly increasing sequence of the same values, starting with the same first value |
| Steps.Unique | SOURCE/time_calc.py:52 | the distinct values, strictly increasing, exactly those of the input |
| Steps.Counts | SOURCE/time_calc.py:52 | one occurrence count per distinct value |
| Steps.ArgMaxFirst | SOURCE/time_calc.py:62 | the index of the first largest count |
| Steps.RemoveAt | SOURCE/time_calc.py:55-56 | deleting one index shifts the later entries down by one and keeps the earlier ones |
| Steps.IndexOf | SOURCE/time_calc.py:54 | the first index holding a value |
| Steps.RemoveAtIncreasing | SOURCE/time_calc.py:53-56 | deleting from a strictly increasing sequence keeps it strictly increasing and removes exactly that value |
| Steps.IncreasingIndexOrder | SOURCE/time_calc.py:52-62 | in a strictly increasing sequence a smaller value sits at a smaller index |
| Steps.NonZeroValues | SOURCE/time_calc.py:52-56 | the distinct non-zero steps, strictly increasing |
| Steps.ModalStepSpec | SOURCE/time_calc.py:52-62 | there is no sampling step exactly when every step is zero; otherwise the result is a non-zero step no other non-zero step beats in frequency, the smallest among the most frequent |
| Steps.ModalStepUnique | SOURCE/time_calc.py:52-62 | the modal step is determined uniquely by the steps |
| TimeCheck.DuplicateMask | SOURCE/time_check.py:65-66 | a record is a duplicate exactly when an earlier record has the same time |
| TimeCheck.Not | SOURCE/time_check.py:70 | the negated mask |
| TimeCheck.FirstOccurrences | SOURCE/time_check.py:65-72 | removing the duplicates leaves at most as many times |
| TimeCheck.HasDuplicatesMeaning | SOURCE/time_check.py:65-69 | the axis is not unique exactly when two records share a time |
| TimeCheck.Code | SOURCE/time_check.py:78-104 | the status code is between 0 and 3, and an axis whose sorted version is not close to it within 1e-5 relative and 1e-8 absolute gets the non-monotonic bit |
| TimeCheck.Status | SOURCE/time_check.py:48-107 | when the axis has a non-zero step the returned status is the code |
| TimeCheck.StatusError | SOURCE/time_check.py:56-59 | the check fails exactly when no step is non-zero, where picking the most frequent step reads an empty array |
| TimeCheck.StatusFormula | SOURCE/time_check.py:65-104 | the code is 1 for duplicates plus 2 when the de-duplicated axis is not close to its sorted version within `np.allclose` tolerances; a sorted de-duplicated axis has no non-monotonic bit |
| TimeCheck.SortedAllClose | SOURCE/time_check.py:73-75 | an axis that is already sorted is close to its sorted version |
| TimeCheck.FarDisorderDetected | SOURCE/time_check.py:65-78 | when some de-duplicated time is not close to the time at the same place after sorting, the code carries the non-monotonic bit |
| TimeCheck.DistinctKept | SOURCE/time_check.py:65-72 | an axis without repeated times has no duplicates and is kept whole |
| TimeCheck.ToleratedSwap | SOURCE/time_check.py:73-75 | two hourly records out of order on a present-day axis are within the relative tolerance of `np.allclose`, so an axis that is not sorted still gets code 0 |
| TimeCheck.IncreasingHasStatusZero | SOURCE/time_check.py:48-104 | a strictly increasing axis of at least two records has status 0 |
| TimeCheck.CodeOfIncreasing | SOURCE/time_check.py:65-104 | a strictly increasing axis has code 0 |
| TimeCalc.ValidTimes | SOURCE/time_calc.py:48-49 | the unmasked times: at most as many, and exactly the present values |
| TimeCalc.SamplingTimeSpec | SOURCE/time_calc.py:48-67 | the sampling time is positive and is the modal non-zero step of the sorted unmasked times |
| TimeCalc.SamplingTimeOrderFree | SOURCE/time_calc.py:48-67 | the sampling time depends only on the multiset of unmasked times, not their order |
| TimeCalc.ZeroGapsIffConstant | SOURCE/time_calc.py:51-56 | every step is zero exactly when every time equals the first |
| TimeCalc.EqualToFirst | SOURCE/time_calc.py:51-56 | when every step is zero each time equals the first |
| TimeCalc.SamplingTimeError | SOURCE/time_calc.py:53-62 | the computation fails exactly when all unmasked times are equal (or there are fewer than two), where picking the most frequent step reads an empty array |
| TimeCalc.ConstantIffSingleValue | SOURCE/time_calc.py:51-56 | a sequence is constant exactly when it holds a single value |
| DuplicatedRecords.AtTime | SOURCE/duplicated_records_remover.py:45-46 | the records stamped with a given time |
| DuplicatedRecords.Averaged | SOURCE/duplicated_records_remover.py:88-105 | one averaged value per distinct time |
| DuplicatedRecords.GroupMeans | SOURCE/duplicated_records_remover.py:88-105 | one averaged value per listed time |
| DuplicatedRecords.MaskBit | SOURCE/duplicated_records_remover.py:94 | a masked value adds 1 to the masked count and a present one 0 |
| DuplicatedRecords.CountMasked | SOURCE/duplicated_records_remover.py:92-99 | the masked and the present values of a group add up to its size |
| DuplicatedRecords.SumStep | SOURCE/duplicated_records_remover.py:89-91 | taking in one more record adds its value (0 when masked) to the sum of its own time and to no other |
| DuplicatedRecords.MaskStep | SOURCE/duplicated_records_remover.py:92-94 | taking in one more record adds its mask bit to the masked count of its own time and to no other |
| DuplicatedRecords.AppendOne | SOURCE/duplicated_records_remover.py:89-94 | appending a value adds it (0 when masked) to the sum and its mask bit to the masked count |
| DuplicatedRecords.NothingAccumulated | SOURCE/duplicated_records_remover.py:90-93 | before any record the sums and the masked counts are all zero |
| DuplicatedRecords.AddAtSums | SOURCE/duplicated_records_remover.py:89-91 | the `np.add.at` loop leaves in each slot the sum of the filled values of the records at that time |
| DuplicatedRecords.AddAtMasked | SOURCE/duplicated_records_remover.py:92-94 | the `np.add.at` loop leaves in each slot the number of masked values of the records at that time |
| DuplicatedRecords.AverageDuplicates | SOURCE/duplicated_records_remover.py:88-105 | the procedure on one variable returns exactly the group means |
| DuplicatedRecords.Divide | SOURCE/duplicated_records_remover.py:95-105 | dividing the sums by the present counts gives the group means, masked where no value is present |
| DuplicatedRecords.AveragedEntry | SOURCE/duplicated_records_remover.py:95-105 | the present count of a group is never negative, and its mean is the sum over it, masked when it is zero |
| DuplicatedRecords.GroupMean | SOURCE/duplicated_records_remover.py:95-105 | the masked mean of a group is its filled sum over its present count, masked when no value is present |
| DuplicatedRecords.AccumulateStep | SOURCE/duplicated_records_remover.py:91 | one more record joins the group of its own time and leaves every other group as it was |
| DuplicatedRecords.GroupSize | SOURCE/duplicated_records_remover.py:45-46 | a group holds as many values as there are records at its time |
| DuplicatedRecords.RemoveDuplicatesSpec | SOURCE/duplicated_records_remover.py:45-119 | the output time axis is strictly increasing (or the file is copied unchanged) and holds exactly the input times; variables without the time dimension are kept |
| DuplicatedRecords.AveragedMeaning | SOURCE/duplicated_records_remover.py:99-105 | an averaged value is masked exactly when every record at its time is masked |
| DuplicatedRecords.GroupMembers | SOURCE/duplicated_records_remover.py:99-105 | all of a group is masked exactly when every record at that time is masked |
| MonotonicityFixer.ReorderAll | SOURCE/records_monotonicity_fixer.py:68-85 | every time-dimensioned variable is reindexed by the same record order, the others are kept, names and dimensions unchanged |
| MonotonicityFixer.AllStepsPositiveIffIncreasing | SOURCE/records_monotonicity_fixer.py:45 | every consecutive step is positive exactly when the axis is strictly increasing |
| MonotonicityFixer.IncreasingBetween | SOURCE/records_monotonicity_fixer.py:45 | positive consecutive steps order every pair of records |
| MonotonicityFixer.FixMonotonicitySpec | SOURCE/records_monotonicity_fixer.py:42-85 | the output axis is the sorted input axis, a permutation of it, and every variable keeps its name, dimensions and, when not time-dimensioned, its values |
| MonotonicityFixer.FixedTime | SOURCE/records_monotonicity_fixer.py:43-51 | the output time axis is the sorted input axis |
| MonotonicityFixer.FixedVariables | SOURCE/records_monotonicity_fixer.py:68-85 | the output keeps the record count, the variables and their names and dimensions |
| MonotonicityFixer.RecordOrder | SOURCE/records_monotonicity_fixer.py:43-51 | the applied record order is a permutation of the record indices |
| MonotonicityFixer.FixMonotonicityKeepsRecords | SOURCE/records_monotonicity_fixer.py:73-81 | output record j is input record RecordOrder(time)[j], both in time and in every time-dimensioned variable |
| MonotonicityFixer.Reordered | SOURCE/records_monotonicity_fixer.py:73-81 | reindexing the time axis and the variables by one index list moves whole records |
| MonotonicityFixer.FixMonotonicityIdempotent | SOURCE/records_monotonicity_fixer.py:45-51 | fixing a fixed file changes nothing |
| MonotonicityFixer.ReorderIdentity | SOURCE/records_monotonicity_fixer.py:45-51 | the identity order leaves every variable as it is |
| AveragerStep.AveragerModalStep | SOURCE/obs_postpro/time_averager.py:158-163 | the step the averager picks, when it picks one, is a non-zero step of the axis |
| AveragerStep.AveragerModalStepWithoutZero | SOURCE/obs_postpro/time_averager.py:158-163 | without a zero step the averager picks the true modal step |
| AveragerStep.AveragerModalStepShift | SOURCE/obs_postpro/time_averager.py:161-163 | with a zero step the averager reads the distinct step one place after the most frequent one, and fails when that place does not exist |
| AveragerStep.ZeroFirst | SOURCE/obs_postpro/time_averager.py:159-161 | among non-negative steps, zero is the first distinct step |
| AveragerStep.ModalStepOf | SOURCE/time_calc.py:52-62 | a step meeting the modal-step property is the one the corrected computation returns |
| AveragerStep.ModalStepExample | SOURCE/time_calc.py:52-62 | for steps 0, 60, 60, 120 the modal step is 60 |
| AveragerStep.AveragerModalStepPicksWrongStep | SOURCE/obs_postpro/time_averager.py:161-163 | for steps 0, 60, 60, 120 the averager picks 120 |
| AveragerStep.FirstExampleFacts | SOURCE/obs_postpro/time_averager.py:159 | the distinct steps and counts of 0, 60, 60, 120 |
| AveragerStep.FirstExampleResult | SOURCE/obs_postpro/time_averager.py:161-163 | with steps 0 once, 60 twice and 120 once the averager picks 120 |
| AveragerStep.ModalStepSecondExample | SOURCE/time_calc.py:52-62 | for steps 0, 10, 10 the modal step is 10 |
| AveragerStep.AveragerModalStepOutOfRange | SOURCE/obs_postpro/time_averager.py:161-163 | for steps 0, 10, 10 the averager indexes past the end of the distinct non-zero steps |
| AveragerStep.SecondExampleFacts | SOURCE/obs_postpro/time_averager.py:159 | the distinct steps and counts of 0, 10, 10 |
| AveragerStep.SecondExampleResult | SOURCE/obs_postpro/time_averager.py:161-163 | with steps 0 once and 10 twice the averager fails |
| AveragerPlan.CarryUnits | SOURCE/obs_postpro/time_averager.py:180-188 | the carry loops keep the total number of minutes, leave minutes below 60 and hours below 24, and change nothing that is already in range |
| AveragerPlan.DivModUnique | SOURCE/obs_postpro/time_averager.py:183-188 | a quotient and remainder in range are the Euclidean ones |
| AveragerPlan.ClockResolution | SOURCE/obs_postpro/time_averager.py:195-200 | the rounding unit is the minute when there are minutes, else the hour when there are hours, else the day when there are days, else none |
| AveragerPlan.ClockLabel | SOURCE/obs_postpro/time_averager.py:189-194 | the caption is empty exactly when days, hours and minutes are all zero |
| AveragerPlan.Field | SOURCE/obs_postpro/time_averager.py:181-182 | a colon-separated field is read when it exists and is an integer |
| AveragerPlan.DayHourMinute | SOURCE/obs_postpro/time_averager.py:183-188 | the carried days, hours below 24 and minutes below 60 add up to the given minutes |
| AveragerPlan.ClockPlan | SOURCE/obs_postpro/time_averager.py:176-202 | an HH:MM step gives an output step of its hours and minutes in seconds, the resolution, caption and pandas frequency of its carried units, and no resolution exactly when it is 00:00 |
| AveragerPlan.MonthPlan | SOURCE/obs_postpro/time_averager.py:216-225 | a month count gives a step of 30-day months, the year start for 12 months and the month start otherwise |
| AveragerPlan.ReadAverageStep | SOURCE/obs_postpro/time_averager.py:176-225 | a string of three or more characters is read as HH:MM[:SS] and fails exactly when a field is missing or not an integer; a shorter one is a month count |
| AveragerPlan.CheckTolerance | SOURCE/obs_postpro/time_averager.py:227-241 | the input step is refused when above 110% of the output step, tolerated when above the output step, and accepted otherwise |
| AveragerPlan.FinerStepAccepted | SOURCE/obs_postpro/time_averager.py:227-241 | an input step not above the output step is accepted without tolerance |
| AveragerPlan.ToleranceMonotone | SOURCE/obs_postpro/time_averager.py:227-233 | a finer input step than an accepted one is accepted too |
| AveragerPlan.RoundUnitMillis | SOURCE/obs_postpro/time_averager.py:255-273 | the rounding unit is one of 10 ms, 100 ms, 1 s, 10 s, 1 min, 10 min, 1 h, 10 h or 1 day |
| AveragerPlan.RoundUnitMonotone | SOURCE/obs_postpro/time_averager.py:255-273 | a longer input step never gets a finer rounding unit |
| AveragerPlan.RoundUnitFine | SOURCE/obs_postpro/time_averager.py:255-273 | the rounding unit is at most a tenth of the input step |
| AveragerPlan.RoundToMultiple | SOURCE/obs_postpro/time_averager.py:274 | rounding to a unit gives a multiple of the unit at most half a unit away |
| AveragerPlan.MultipleMod | SOURCE/obs_postpro/time_averager.py:274 | a multiple of the unit leaves remainder 0 |
| AveragerPlan.RoundToMultipleMonotone | SOURCE/obs_postpro/time_averager.py:274-277 | rounding keeps the order of the stamps |
| AveragerPlan.MultiplesApart | SOURCE/obs_postpro/time_averager.py:274-277 | two different multiples of the unit are at least one unit apart |
| AveragerPlan.RoundToMultipleOfMultiple | SOURCE/obs_postpro/time_averager.py:274 | a stamp already on the unit is unchanged |
| AveragerPlan.BucketStart | SOURCE/obs_postpro/time_averager.py:279-283 | the first left bound is the first stamp truncated to the resolution, moved back by half the output step when shifting, and never after the first stamp |
| AveragerPlan.EpochSecondsMonotoneOrEqual | SOURCE/obs_postpro/time_averager.py:279-283 | a date-time not after another has no more epoch seconds |
| AveragerPlan.LeftBounds | SOURCE/obs_postpro/time_averager.py:284 | the left bounds start at the start, advance by the step and end at the last bound not after the end |
| AveragerPlan.MidPoints | SOURCE/obs_postpro/time_averager.py:285-286 | each output stamp is its left bound plus half the step length |
| AveragerPlan.RightBounds | SOURCE/obs_postpro/time_averager.py:285-287 | one right bound per left bound |
| AveragerPlan.BoundsContiguous | SOURCE/obs_postpro/time_averager.py:284-287 | with at least two cells each right bound meets the next left bound exactly when the step length equals the output step, which fails for an HH:MM:SS step with seconds |
| AveragerPlan.EvenlySpacedContiguous | SOURCE/obs_postpro/time_averager.py:284-287 | evenly spaced cells tile the axis exactly when their length equals the spacing |
| TimeAverager.Stamps | SOURCE/obs_postpro/time_averager.py:82 | the stamps in epoch seconds, as `asi8` reads them |
| TimeAverager.BucketWeights | SOURCE/obs_postpro/time_averager.py:78-82 | one weight per stamp: the gap to the next stamp, the last one up to the round-up of the last stamp |
| TimeAverager.WeightedAverage | SOURCE/obs_postpro/time_averager.py:79-84 | the average is masked exactly when every value is missing |
| TimeAverager.TimeWeightedAverage | SOURCE/obs_postpro/time_averager.py:73-84 | an empty cell or a cell with no value averages to missing |
| TimeAverager.StampsIncrease | SOURCE/obs_postpro/time_averager.py:82 | chronological stamps have strictly increasing epoch seconds |
| TimeAverager.WeightsPositive | SOURCE/obs_postpro/time_averager.py:78-82 | on a chronological cell every weight is positive |
| TimeAverager.GapsPositive | SOURCE/obs_postpro/time_averager.py:82 | the gaps of an increasing axis extended by a later end are positive |
| TimeAverager.ValidWeightPositive | SOURCE/obs_postpro/time_averager.py:81-82 | with positive weights the total weight of the present values is positive as soon as one is present |
| TimeAverager.WeightedSumConstant | SOURCE/obs_postpro/time_averager.py:81-82 | on a constant series the weighted sum is the total weight times the constant |
| TimeAverager.WeightedAverageConstant | SOURCE/obs_postpro/time_averager.py:81-82 | a constant series with a present value averages to the constant |
| TimeAverager.TimeWeightedAverageConstant | SOURCE/obs_postpro/time_averager.py:73-84 | on a chronological cell a constant series averages to the constant |
| TimeAverager.WeightedAverageDefined | SOURCE/obs_postpro/time_averager.py:79-84 | with positive weights the average never divides by zero |
| TimeAverager.TimeWeightedAverageDefined | SOURCE/obs_postpro/time_averager.py:73-84 | on a chronological cell the average is defined, and missing exactly when every value is missing |
| QualityCheckApplier.ParsePieces | SOURCE/obs_postpro/quality_check_applier.py:52-59 | the space-separated accepted values are read exactly when every piece is an integer as `int()` reads it (whitespace around it, a sign, single `_` between digits), keeping their order |
| QualityCheckApplier.IntToStringHasNoSpace | SOURCE/obs_postpro/quality_check_applier.py:53 | a printed integer holds no space, so it is one piece of the list |
| QualityCheckApplier.ParseFlagsText | SOURCE/obs_postpro/quality_check_applier.py:52-59 | reading back the space-joined text of a non-empty list of flags gives the list |
| QualityCheckApplier.ParseTexts | SOURCE/obs_postpro/quality_check_applier.py:53 | reading the printed pieces gives the values back |
| QualityCheckApplier.QcLayout | SOURCE/obs_postpro/quality_check_applier.py:106-115 | the QC variable is accepted with the variable's own shape, or with one extra trailing dimension when that dimension is `iteration`, and refused otherwise |
| QualityCheckApplier.IterationIndex | SOURCE/obs_postpro/quality_check_applier.py:133-136 | an iteration in range selects that slice, counting from the end when negative; one out of range falls back to slice 1, which fails when there is a single slice |
| QualityCheckApplier.LastIterationByDefault | SOURCE/obs_postpro/quality_check_applier.py:23 | the default iteration -1 selects the last slice |
| QualityCheckApplier.IterationFlags | SOURCE/obs_postpro/quality_check_applier.py:134 | the flags of one iteration, one per element |
| QualityCheckApplier.SelectFlags | SOURCE/obs_postpro/quality_check_applier.py:131-138 | the flags used: the QC data itself for the same shape, or the selected iteration's slice, failing exactly when the iteration cannot be selected |
| QualityCheckApplier.Accepted | SOURCE/obs_postpro/quality_check_applier.py:140-142 | an element is accepted exactly when its flag is one of the accepted values |
| QualityCheckApplier.AcceptedMask | SOURCE/obs_postpro/quality_check_applier.py:140-142 | the OR loop over the accepted values builds exactly the acceptance mask |
| QualityCheckApplier.OneMoreValue | SOURCE/obs_postpro/quality_check_applier.py:141-142 | one more accepted value ORs one more comparison into the mask |
| QualityCheckApplier.Masked | SOURCE/obs_postpro/quality_check_applier.py:143 | an element stays present exactly when it was present and accepted, and then keeps its value |
| QualityCheckApplier.MaskRejected | SOURCE/obs_postpro/quality_check_applier.py:143 | the in-place mask update leaves exactly the masked data |
| QualityCheckApplier.ApplyQualityCheck | SOURCE/obs_postpro/quality_check_applier.py:52-150 | the tool fails on an unreadable list of values, a refused QC layout, an all-masked variable, an unselectable iteration or an all-masked result, and succeeds in every other case, returning the data with every rejected element masked |
| QualityCheckApplier.MaskOnlyGrows | SOURCE/obs_postpro/quality_check_applier.py:130-143 | a masked element stays masked and an accepted element keeps its value |
| QualityCheckApplier.MaskIdempotent | SOURCE/obs_postpro/quality_check_applier.py:143 | applying the same mask twice is applying it once |
| DataInformation.WithoutNoQc | SOURCE/obs_postpro/data_information_calc.py:165-169 | `np.delete` of the matches of a non-zero no-QC flag: the kept accepted values are exactly the given ones other than that flag, and a list without it is left as it is |
| DataInformation.NoQcRecordNotValid | SOURCE/obs_postpro/data_information_calc.py:165-222 | under a non-zero no-QC flag, a record carrying it is never counted valid, and is counted invalid exactly when it is not filled |
| DataInformation.NoQcRemovedExample | SOURCE/obs_postpro/data_information_calc.py:165-246 | flags 9 and 1 with no-QC flag 9 and accepted values "1 9" report one no-QC record at 0, one valid record at 1, no filled record and one invalid record at 0 |
| DataInformation.NoQcMask | SOURCE/obs_postpro/data_information_calc.py:151-181 | a record counts as no-QC exactly when its flag equals a non-zero no-QC flag |
| DataInformation.FilledMask | SOURCE/obs_postpro/data_information_calc.py:209-222 | a record counts as filled exactly when its flag equals the QC fill value or the missing-value flag |
| DataInformation.ValidInvalidMasks | SOURCE/obs_postpro/data_information_calc.py:190-194 | the loop marks a record valid exactly when its flag is accepted and invalid exactly when it is not |
| DataInformation.InvalidMask | SOURCE/obs_postpro/data_information_calc.py:190-222 | a record is invalid exactly when its flag is not accepted and it is not filled |
| DataInformation.DataInformation | SOURCE/obs_postpro/data_information_calc.py:72-255 | the tool fails exactly on an unreadable list of values or a window without records, and otherwise returns the report of the flags inside the window, classified against the accepted values without the no-QC flag |
| DataInformation.Classify | SOURCE/obs_postpro/data_information_calc.py:135-246 | the total followed by the count and last index of the no-QC, valid, filled and invalid records, valid and invalid being judged after a non-zero no-QC flag is deleted from the accepted values |
| DataInformation.ExcludeFilled | SOURCE/obs_postpro/data_information_calc.py:209-222 | the in-place update leaves exactly the invalid mask without the filled records |
| DataInformation.ClassesCoverDisjointly | SOURCE/obs_postpro/data_information_calc.py:190-222 | no record is both valid and invalid or both filled and invalid, and every record is valid, filled or invalid |
| DataInformation.ZeroNoQcFlagIgnored | SOURCE/obs_postpro/data_information_calc.py:165-181 | a no-QC flag of 0 is falsy: nothing counts as no-QC and the last index is -1 |
| DataInformation.NoQcCounted | SOURCE/obs_postpro/data_information_calc.py:165-178 | with a non-zero no-QC flag the count is zero exactly when no record carries the flag |
| RejectionStatistics.CheckIterations | SOURCE/obs_postpro/rejection_statistics.py:63-75 | the iteration count is accepted exactly when it is given and not negative |
| RejectionStatistics.Numbers | SOURCE/obs_postpro/rejection_statistics.py:105-106 | a `;` list is read exactly when every piece is an integer, keeping its order |
| RejectionStatistics.ParseColumn | SOURCE/obs_postpro/rejection_statistics.py:102-106 | a column is read exactly when every row has it and its cell parses, one list per row |
| RejectionStatistics.ColumnRows | SOURCE/obs_postpro/rejection_statistics.py:102-106 | the `;` lists of one column, one per row, read exactly when every cell holds integers |
| RejectionStatistics.StatisticRows | SOURCE/obs_postpro/rejection_statistics.py:129-138 | one column of lists per statistical iteration, the iteration k read from column 7 + k |
| RejectionStatistics.ReadTable | SOURCE/obs_postpro/rejection_statistics.py:94-138 | an empty table is refused; otherwise totals, filled, range, spike and stuck are read from columns 2 to 6 and the statistics after them |
| RejectionStatistics.LayoutMatchesHeader | SOURCE/obs_postpro/rejection_statistics.py:102-138 | with all tests on, the columns read here are the columns the driver's header names |
| RejectionStatistics.LayoutShiftsWithoutRange | SOURCE/obs_postpro/rejection_statistics.py:113 | with the range check off the driver's column 4 is the spike column, which this tool still reads as the range column |
| RejectionStatistics.MaxLength | SOURCE/obs_postpro/rejection_statistics.py:103-104 | the padded width is the length of the longest list, 0 for no rows |
| RejectionStatistics.Pad | SOURCE/obs_postpro/rejection_statistics.py:103-106 | the zero-padded matrix has one row per list, the longest list's width, each list at the start of its row and zeros after; no rows is an error |
| RejectionStatistics.ColumnTotalBeyondRows | SOURCE/obs_postpro/rejection_statistics.py:165-180 | a position past every list sums to zero |
| RejectionStatistics.ColumnTotalsOrdered | SOURCE/obs_postpro/rejection_statistics.py:165-173 | column sums keep the row-wise bound "rejected plus filled at most total" |
| RejectionStatistics.Percentage | SOURCE/obs_postpro/rejection_statistics.py:167-180 | a percentage is defined exactly when the whole is non-zero |
| RejectionStatistics.PercentageRounded | SOURCE/obs_postpro/rejection_statistics.py:167-180 | a defined percentage is `np.around` to two decimals: within 0.005 of 100 times the part over the whole, and 100 times it is the whole number nearest to 10000 times the part over the whole, ties going to the even one |
| RejectionStatistics.RejectionShareBounded | SOURCE/obs_postpro/rejection_statistics.py:168-173 | when each row's rejections and filled data fit in its total, the rejection percentage is between 0 and 100 |
| RejectionStatistics.AddPosition | SOURCE/obs_postpro/rejection_statistics.py:163-180 | one more position appends a share to every list |
| RejectionStatistics.SharesOf | SOURCE/obs_postpro/rejection_statistics.py:158-180 | one list of shares per statistical iteration |
| RejectionStatistics.SharesOfPositions | SOURCE/obs_postpro/rejection_statistics.py:163-173 | at each position: filled over total, and range, spike and stuck rejections over checked data, each as the two-decimal `np.around` percentage of RejectionStatistics.Percentage |
| RejectionStatistics.StatisticSharesOfPositions | SOURCE/obs_postpro/rejection_statistics.py:174-180 | at each position the statistical rejections of each iteration over checked data, each as the two-decimal `np.around` percentage of RejectionStatistics.Percentage |
| RejectionStatistics.AppendStatisticShares | SOURCE/obs_postpro/rejection_statistics.py:174-180 | the iteration loop appends one share to each iteration's list |
| RejectionStatistics.AppendPosition | SOURCE/obs_postpro/rejection_statistics.py:164-180 | one pass of the position loop appends exactly the shares of that position |
| RejectionStatistics.Analyse | SOURCE/obs_postpro/rejection_statistics.py:158-180 | the position loop over the standard names succeeds exactly when every padded matrix is wide enough, and returns the two-decimal shares of every position |
| RejectionStatistics.OutputHeader | SOURCE/obs_postpro/rejection_statistics.py:140-148 | the output header: standard names, filled data, the three test percentages and one percentage per statistical iteration |
| ObsPostpro.UpdateMode | SOURCE/obs_postpro/obs_postpro.py:393-405 | the run stops exactly when a real climatology directory is given and does not exist, and is in update mode exactly when it exists |
| ObsPostpro.MaximumStep | SOURCE/obs_postpro/obs_postpro.py:990-997 | each cadence accepts sampling times up to its step (an hour, a day, 31 days, 365 days) plus 10% |
| ObsPostpro.Allowed | SOURCE/obs_postpro/obs_postpro.py:998-1006 | the allowed cadences are a subsequence of the record folders |
| ObsPostpro.AllowedMembers | SOURCE/obs_postpro/obs_postpro.py:986-1006 | a cadence is averaged exactly when it is a record folder and the sampling time does not exceed its maximum step |
| ObsPostpro.Cadences | SOURCE/obs_postpro/obs_postpro.py:985-1006 | the `under_one_*` flags and the folder loop produce exactly the allowed cadences, in folder order |
| ObsPostpro.AllowedMonotone | SOURCE/obs_postpro/obs_postpro.py:986-1006 | a finer sampling never loses a cadence a coarser one has |
| ObsPostpro.HourlyAndDaily | SOURCE/obs_postpro/obs_postpro.py:986-1006 | hourly sampling allows every cadence, daily sampling all but the hourly one |
| ObsPostpro.StatisticNameInjective | SOURCE/obs_postpro/obs_postpro.py:465-468 | two iterations with the same statistic column name are the same iteration |
| ObsPostpro.StatisticNames | SOURCE/obs_postpro/obs_postpro.py:465-468 | one statistic column name per iteration |
| ObsPostpro.EnabledTests | SOURCE/obs_postpro/obs_postpro.py:459-464 | at most three test columns |
| ObsPostpro.RejectionHeader | SOURCE/obs_postpro/obs_postpro.py:456-471 | there is a rejection table exactly when the iteration count is not negative, and its header is the four fixed columns, the enabled tests and one statistic column per iteration |
| ObsPostpro.AppendStatisticColumns | SOURCE/obs_postpro/obs_postpro.py:465-468 | the loop appends exactly the statistic column names |
| ObsPostpro.StatisticNamesDistinct | SOURCE/obs_postpro/obs_postpro.py:465-468 | column i is `statistic_rejection_<i+1>` and no two statistic columns share a name |
| ObsPostpro.Concatenated | SOURCE/obs_postpro/obs_postpro.py:819-824 | joining a variable's statistics fails exactly when the table is non-empty and lacks one of its columns, and keeps the table's columns otherwise |
| ObsPostpro.Concatenate | SOURCE/obs_postpro/obs_postpro.py:820-824 | the column loop returns exactly the joined statistics |
| ObsPostpro.ConcatenatedAppends | SOURCE/obs_postpro/obs_postpro.py:823-824 | joining adds the variable's entry as one more element of each `;` list |
| ObsPostpro.ZerosSplit | SOURCE/obs_postpro/obs_postpro.py:927-928 | the zero fill is n entries "0" |
| ObsPostpro.RangeColumn | SOURCE/obs_postpro/obs_postpro.py:922-929 | the range column is the stored statistics when present, the zero fill when only the totals are, and a failure when neither is |
| ObsPostpro.RangeColumnAligned | SOURCE/obs_postpro/obs_postpro.py:927-929 | the zero fill has as many entries as the totals |
| ObsPostpro.Cell | SOURCE/obs_postpro/obs_postpro.py:922-940 | every column but the range check reads its own statistics and fails exactly when they are missing |
| ObsPostpro.Cells | SOURCE/obs_postpro/obs_postpro.py:922-940 | the cells of all columns in order, failing exactly when one fails |
| ObsPostpro.RejectionLine | SOURCE/obs_postpro/obs_postpro.py:918-940 | a line is the code, the `;`-joined variable names, the totals and one cell per header column, and fails exactly when a column it reads is missing |
| ObsPostpro.WrittenDistinct | SOURCE/obs_postpro/obs_postpro.py:498-509 | the probes table never holds a platform code twice, nor `platform_code`, and only codes of the input table |
| ObsPostpro.VisitPlatforms | SOURCE/obs_postpro/obs_postpro.py:498-914 | the platform loop writes exactly the codes of the specification function, skipping repeated ones |
| InsituEvaluation.ToSeconds | SOURCE/insitu_evaluation.py:20-24 | the `:`-separated loop equals the fold that multiplies by 60 and adds each integer part as `int()` reads it, failing on a part that is not an integer |
| InsituEvaluation.FoldFrom | SOURCE/insitu_evaluation.py:22-23 | one loop step of the fold: a part that `int()` refuses fails the conversion, otherwise its value is added after multiplying by 60 |
| InsituEvaluation.FoldThreeParts | SOURCE/insitu_evaluation.py:20-24 | three integer parts x, y, z give x*3600 + y*60 + z |
| InsituEvaluation.SplitThree | SOURCE/insitu_evaluation.py:22 | splitting `a:b:c` on `:` gives back a, b and c when none holds a colon |
| InsituEvaluation.ClockToSeconds | SOURCE/insitu_evaluation.py:20-24 | the clock string h:m:s converts to h*3600 + m*60 + s |
| InsituEvaluation.EvaluationType | SOURCE/insitu_evaluation.py:423-441 | the comparison goes on exactly when both sampling times are equal and hourly or daily, hourly records for 3600 s and daily ones for 86400 s |
| InsituEvaluation.HalfStep | SOURCE/insitu_evaluation.py:655-660 | the half width of a time bound is 1800 s for hourly and 43200 s for daily records |
| InsituEvaluation.TimeBounds | SOURCE/insitu_evaluation.py:651-660 | one bound pair per output time |
| InsituEvaluation.TimeBoundsTile | SOURCE/insitu_evaluation.py:655-660 | each bound pair is centred on its time and spans one step, and consecutive times one step apart have touching bounds |
| InsituEvaluation.CutIndices | SOURCE/insitu_evaluation.py:369-391 | the dataset is rejected exactly when no time lies in the selected period |
| InsituEvaluation.CutIndicesExact | SOURCE/insitu_evaluation.py:369-391 | the kept indices are increasing and are exactly the records whose time lies within the inclusive period bounds |
| InsituEvaluation.CutInRange | SOURCE/insitu_evaluation.py:391 | every kept index is a record index |
| InsituEvaluation.Union | SOURCE/insitu_evaluation.py:493 | the output times are strictly increasing and hold exactly the times of either dataset |
| InsituEvaluation.UnionPlacesDataset | SOURCE/insitu_evaluation.py:493-498 | the positions of a dataset's times in the union pick those times back, one position per time |
| InsituEvaluation.UnionSymmetric | SOURCE/insitu_evaluation.py:493 | the union does not depend on the order of the datasets |
| InsituEvaluation.Intersection | SOURCE/insitu_evaluation.py:484 | the common times are strictly increasing and hold exactly the times of both datasets |
| InsituEvaluation.DepthIntersection | SOURCE/insitu_evaluation.py:500 | the common depths are increasing and hold exactly the depths of both datasets |
| InsituEvaluation.FilterIncreasingReals | SOURCE/insitu_evaluation.py:509-512 | keeping some depths of an increasing list leaves it increasing |
| InsituEvaluation.IncreasingRealsSame | SOURCE/insitu_evaluation.py:500-512 | two increasing depth lists with the same members are equal |
| InsituEvaluation.DepthColumnsAlign | SOURCE/insitu_evaluation.py:509-512 | the depth indices chosen in each dataset pick exactly the common depths, in order, so the two datasets' columns line up |
| InsituEvaluation.Placed | SOURCE/insitu_evaluation.py:518-523 | the placed data has one row per output time and one column per common depth |
| InsituEvaluation.PlacedRows | SOURCE/insitu_evaluation.py:518-523 | a kept record lands at its position in the output times with its common-depth columns, and every other output time is fully masked |
| InsituEvaluation.Difference | SOURCE/insitu_evaluation.py:581 | the bias is present exactly when both values are, and adding the second value gives back the first |
| InsituEvaluation.Bias | SOURCE/insitu_evaluation.py:581 | the bias matrix is the cell-by-cell difference of the two datasets |
| InsituEvaluation.AbsValue | SOURCE/insitu_evaluation.py:591 | the root of the square is present exactly when the value is, and it is the non-negative one of the value and its negation |
| InsituEvaluation.AbsAll | SOURCE/insitu_evaluation.py:591 | the absolute value of every entry |
| InsituEvaluation.Rmse | SOURCE/insitu_evaluation.py:591 | the error matrix is the cell-by-cell absolute bias |
| InsituEvaluation.Column | SOURCE/insitu_evaluation.py:593-595 | one entry per time |
| InsituEvaluation.Profile | SOURCE/insitu_evaluation.py:593-595 | the profile has one entry per depth, the mean over time of the valid values at that depth |
| InsituEvaluation.SumValidAbs | SOURCE/insitu_evaluation.py:591-595 | the sum of absolute values bounds the absolute sum, over the same number of valid values |
| InsituEvaluation.DivideBound | SOURCE/insitu_evaluation.py:593-595 | dividing by a positive count keeps the bound |
| InsituEvaluation.MeanAbsBound | SOURCE/insitu_evaluation.py:593-595 | the mean of absolute values exists exactly when the mean does, and bounds its absolute value |
| InsituEvaluation.ColumnOfRmse | SOURCE/insitu_evaluation.py:591-594 | a depth column of the error matrix is the absolute value of the bias column |
| InsituEvaluation.BiasWithinRmse | SOURCE/insitu_evaluation.py:591-595 | at every depth, the error profile exists exactly when the bias profile does, and bounds its absolute value |
| InsituEvaluation.Compare | SOURCE/insitu_evaluation.py:369-595 | the comparison is skipped for the first dataset exactly when it has no time in the period, and for the second exactly when only it has none. A comparison is made only on common times and depths, over the union of the times, with the bias, error and profiles computed |
| InsituEvaluation.CompareCut | SOURCE/insitu_evaluation.py:484-595 | after the cut, the comparison is skipped for lack of common times exactly when there are none. Otherwise it uses the union of times and the non-empty common depths |
| InsituEvaluation.CompareOn | SOURCE/insitu_evaluation.py:514-595 | on fixed times and depths, the comparison is either skipped for a fully masked dataset or bias, or computed on those axes |
| InsituEvaluation.Statistics | SOURCE/insitu_evaluation.py:538-595 | skipped only because a dataset is fully masked or the two never overlap, and otherwise carries the bias, the error and both profiles on the given axes |
| TimeseriesExtractor.Spread | SOURCE/obs_postpro/insitu_tac_timeseries_extractor.py:127-137 | a per-record array is accepted exactly when it has one entry per record or a single entry, and a single entry is repeated for every record |
| TimeseriesExtractor.TimeQcMask | SOURCE/obs_postpro/insitu_tac_timeseries_extractor.py:116-123 | a record's time is good exactly when there is no time flag or its flag is at most 2 |
| TimeseriesExtractor.PositionQcMask | SOURCE/obs_postpro/insitu_tac_timeseries_extractor.py:125-143 | the position mask fails exactly when the flags are neither one per record nor a single one. Otherwise a record is good when its flag, with 7 read as 2, is at most 2, and every record is good without flags |
| TimeseriesExtractor.GoodMask | SOURCE/obs_postpro/insitu_tac_timeseries_extractor.py:116-151 | the good-record mask has one entry per record and fails exactly when the position mask does |
| TimeseriesExtractor.GoodRecord | SOURCE/obs_postpro/insitu_tac_timeseries_extractor.py:121-151 | with per-record flags, a record is good exactly when its time flag is at most 2 and its position flag is 7 or at most 2 |
| TimeseriesExtractor.SinglePositionFlag | SOURCE/obs_postpro/insitu_tac_timeseries_extractor.py:128-141 | a single position flag decides every record alike |
| TimeseriesExtractor.NoQcKeepsEveryRecord | SOURCE/obs_postpro/insitu_tac_timeseries_extractor.py:122-152 | without time or position flags every record is kept |
| TimeseriesExtractor.LevelMask | SOURCE/obs_postpro/insitu_tac_timeseries_extractor.py:233-234 | the mask has the flags' shape and applies the test to each flag |
| TimeseriesExtractor.DepthQcMask | SOURCE/obs_postpro/insitu_tac_timeseries_extractor.py:227-235 | a depth cell is good exactly when its flag, with 7 read as 2, is at most 2 |
| TimeseriesExtractor.PresQcMask | SOURCE/obs_postpro/insitu_tac_timeseries_extractor.py:258-268 | a pressure cell is good exactly when every pressure flag is 7 or its own flag is at most 2 |
| TimeseriesExtractor.PresSevenRejectedUnlessUniform | SOURCE/obs_postpro/insitu_tac_timeseries_extractor.py:264-267 | a pressure flag 7 is rejected as soon as another flag is not 7 |
| TimeseriesExtractor.PresAllSevenKept | SOURCE/obs_postpro/insitu_tac_timeseries_extractor.py:264-265 | when every pressure flag is 7, every cell is kept |
| TimeseriesExtractor.MaskWhere | SOURCE/obs_postpro/insitu_tac_timeseries_extractor.py:235 | masking keeps the shape, keeps good cells and masks the others |
| TimeseriesExtractor.MaskIf | SOURCE/obs_postpro/insitu_tac_timeseries_extractor.py:310-313 | an absent mask leaves the data unchanged, and a present one masks its bad cells |
| TimeseriesExtractor.SelectTimes | SOURCE/obs_postpro/insitu_tac_timeseries_extractor.py:151-176 | the selection succeeds exactly when the good mask exists and some good record lies in the period, and it is that mask followed by the period cut of the good times |
| TimeseriesExtractor.PickRect | SOURCE/obs_postpro/insitu_tac_timeseries_extractor.py:152-176 | selecting records of a rectangular matrix gives a rectangle with one row per selected record |
| TimeseriesExtractor.PickRows | SOURCE/obs_postpro/insitu_tac_timeseries_extractor.py:214-215 | one row per selected record, with the level count kept |
| TimeseriesExtractor.DepthMask | SOURCE/obs_postpro/insitu_tac_timeseries_extractor.py:210-239 | a depth mask exists exactly when the file has depth and depth flags, shaped as the selected records by levels |
| TimeseriesExtractor.PresMask | SOURCE/obs_postpro/insitu_tac_timeseries_extractor.py:241-272 | a pressure mask exists exactly when the file has pressure and pressure flags, shaped as the selected records by levels |
| TimeseriesExtractor.MaskedValues | SOURCE/obs_postpro/insitu_tac_timeseries_extractor.py:289-313 | a selected value is present exactly when it is not fill and its depth and pressure flags, when present, are good |
| TimeseriesExtractor.VariableQc | SOURCE/obs_postpro/insitu_tac_timeseries_extractor.py:322-341 | the flags are shaped like the values and are all 1 when the variable has no flags |
| TimeseriesExtractor.PickRecords | SOURCE/obs_postpro/insitu_tac_timeseries_extractor.py:174-176 | one entry per selected record |
| TimeseriesExtractor.Assemble | SOURCE/obs_postpro/insitu_tac_timeseries_extractor.py:174-313 | the selected records carry the selected times and masked values, and depth or pressure exactly when the file has them |
| TimeseriesExtractor.SelectRecords | SOURCE/obs_postpro/insitu_tac_timeseries_extractor.py:116-320 | the extraction gets past the selection exactly when the time selection succeeds, longitude and latitude spread, the variable is not PRRD and some value survives the masks. It then holds the selected times and values |
| TimeseriesExtractor.CutTimesInWindow | SOURCE/obs_postpro/insitu_tac_timeseries_extractor.py:154-176 | every time kept by the period cut lies in the period |
| TimeseriesExtractor.SelectedTimesInWindow | SOURCE/obs_postpro/insitu_tac_timeseries_extractor.py:154-176 | every extracted time lies in the period |
| TimeseriesExtractor.SelectRecordsRefuses | SOURCE/obs_postpro/insitu_tac_timeseries_extractor.py:127-207 | position flags, longitudes or latitudes that are neither one per record nor a single value, and an empty record axis, all stop the extraction |
| TimeseriesExtractor.NotEmptyMask | SOURCE/obs_postpro/insitu_tac_timeseries_extractor.py:346-350 | a record is kept exactly when it holds at least one valid value |
| TimeseriesExtractor.Column | SOURCE/obs_postpro/insitu_tac_timeseries_extractor.py:384 | one entry per record, its value at the level |
| TimeseriesExtractor.Columns | SOURCE/obs_postpro/insitu_tac_timeseries_extractor.py:413-418 | one column per kept level, in order |
| TimeseriesExtractor.CountedLevel | SOURCE/obs_postpro/insitu_tac_timeseries_extractor.py:385-386 | the count of unmasked entries of a level is positive exactly when that level holds data |
| TimeseriesExtractor.AppendLevels | SOURCE/obs_postpro/insitu_tac_timeseries_extractor.py:382-418 | the level loop keeps exactly the levels holding data, in order, and appends those columns of values, flags, depth and pressure |
| TimeseriesExtractor.RowsRect | SOURCE/obs_postpro/insitu_tac_timeseries_extractor.py:361-369 | dropping records keeps the matrix rectangular |
| TimeseriesExtractor.RemoveEmpty | SOURCE/obs_postpro/insitu_tac_timeseries_extractor.py:346-418 | fails exactly when no record has data. Otherwise it keeps exactly the non-empty records' times and positions, and the columns of the levels holding data |
| TimeseriesExtractor.NotEmptyAfterAnyData | SOURCE/obs_postpro/insitu_tac_timeseries_extractor.py:315-351 | once some value survives the masks, some record is non-empty |
| TimeseriesExtractor.Extract | SOURCE/obs_postpro/insitu_tac_timeseries_extractor.py:116-422 | the extraction succeeds exactly when the records are selected and the file has depth or pressure, and then keeps the non-empty selected records and the levels holding data |
| PlatformsFinder.CommonSuffixMatches | SOURCE/obs_postpro/insitu_tac_platforms_finder.py:24-25 | the table entry at (i, j) is the length of a common ending of the two prefixes |
| PlatformsFinder.CommonSuffixAtLeast | SOURCE/obs_postpro/insitu_tac_platforms_finder.py:24-30 | every common ending of the two prefixes is no longer than the table entry |
| PlatformsFinder.BestInRow | SOURCE/obs_postpro/insitu_tac_platforms_finder.py:23-28 | the best length found so far never exceeds its end position |
| PlatformsFinder.BestAfterRow | SOURCE/obs_postpro/insitu_tac_platforms_finder.py:22-28 | the best length after a row never exceeds its end position |
| PlatformsFinder.Lcs | SOURCE/obs_postpro/insitu_tac_platforms_finder.py:17-31 | the result is no longer than the first string |
| PlatformsFinder.LongestCommonSubstring | SOURCE/obs_postpro/insitu_tac_platforms_finder.py:17-31 | the table loop returns a common substring of both strings that no common substring is longer than. Among the longest it is the first to end in the first string. It is empty when the strings share no character, and is the string itself for equal strings |
| PlatformsFinder.FillRow | SOURCE/obs_postpro/insitu_tac_platforms_finder.py:23-30 | one pass of the inner loop fills a table row with the common ending lengths and updates the best length and its end |
| PlatformsFinder.AtMostStep | SOURCE/obs_postpro/insitu_tac_platforms_finder.py:26-28 | the best length bounds every entry up to the current one |
| PlatformsFinder.LcsCommon | SOURCE/obs_postpro/insitu_tac_platforms_finder.py:31 | the slice ending at the best position is a substring of both strings |
| PlatformsFinder.LcsLongest | SOURCE/obs_postpro/insitu_tac_platforms_finder.py:22-31 | a best length bounding every table entry bounds every common substring |
| PlatformsFinder.LcsEndsFirst | SOURCE/obs_postpro/insitu_tac_platforms_finder.py:26-28 | the strict `>` update keeps the first end position reaching the best length |
| PlatformsFinder.CommonFirstChar | SOURCE/obs_postpro/insitu_tac_platforms_finder.py:17-31 | a non-empty common substring starts with a character found in both strings |
| PlatformsFinder.SelfLongest | SOURCE/obs_postpro/insitu_tac_platforms_finder.py:17-31 | the longest substring of a string in itself is the string |
| PlatformsFinder.StringIntersection | SOURCE/obs_postpro/insitu_tac_platforms_finder.py:34-45 | the characters of the shorter string, the second on ties, that occur in the longer one, kept in order. A character is in the output exactly when it is in both strings |
| PlatformsFinder.Metadata | SOURCE/obs_postpro/insitu_tac_platforms_finder.py:148-176 | the file's source type is never empty or blank, since it becomes `undefined`. WMO, organisation and link are never a single blank, and the organisation holds no comma |
| PlatformsFinder.EqualCodesMatch | SOURCE/obs_postpro/insitu_tac_platforms_finder.py:239-243 | codes equal up to case always match |
| PlatformsFinder.ShortCodeMatchesOnlyItself | SOURCE/obs_postpro/insitu_tac_platforms_finder.py:239-243 | a code of at most two characters matches only a code equal to it up to case |
| PlatformsFinder.Refresh | SOURCE/obs_postpro/insitu_tac_platforms_finder.py:252-286 | a field takes the candidate's value when it is unset or the file ends later, and keeps its value otherwise |
| PlatformsFinder.Update | SOURCE/obs_postpro/insitu_tac_platforms_finder.py:250-251 | the platform code follows the file only when it ends later than the previous one |
| PlatformsFinder.Step | SOURCE/obs_postpro/insitu_tac_platforms_finder.py:146-286 | one file adds at most its own path to the found list |
| PlatformsFinder.FirstAccepted | SOURCE/obs_postpro/insitu_tac_platforms_finder.py:202-248 | before any file is accepted, a file is accepted exactly when it holds a requested variable, lies in the date window and lies around the position. It then gives the metadata |
| PlatformsFinder.LaterAccepted | SOURCE/obs_postpro/insitu_tac_platforms_finder.py:202-246 | after the first, a file is accepted exactly when it also matches the current platform code |
| PlatformsFinder.EarlierFileKeepsMetadata | SOURCE/obs_postpro/insitu_tac_platforms_finder.py:250-286 | a wanted file that does not end later keeps the platform code and every metadata field already set |
| PlatformsFinder.RunPrefix | SOURCE/obs_postpro/insitu_tac_platforms_finder.py:141-286 | the found list only grows along the loop, and some file has been accepted exactly when it is non-empty |
| PlatformsFinder.FoundAreNearby | SOURCE/obs_postpro/insitu_tac_platforms_finder.py:202-246 | every found file holds a requested variable, lies in the date window and lies around the position |
| PlatformsFinder.CodeCondition | SOURCE/obs_postpro/insitu_tac_platforms_finder.py:230-243 | the platform code condition holds for the first file and otherwise exactly when the codes match |
| PlatformsFinder.Visit | SOURCE/obs_postpro/insitu_tac_platforms_finder.py:147-286 | the loop body computes exactly one step of the specification |
| PlatformsFinder.FindPlatforms | SOURCE/obs_postpro/insitu_tac_platforms_finder.py:110-301 | the search fails exactly when the first date is after the last, or when no names are given and there are files to read. Otherwise it returns the found files and metadata of the specification, or nothing with empty strings |
| PointwiseConcatenator.Shortest | SOURCE/pointwise_datasets_concatenator.py:30 | the shortest candidate, the first of equal length, is one of the candidates and no candidate is shorter |
| PointwiseConcatenator.Candidates | SOURCE/pointwise_datasets_concatenator.py:27-29 | one candidate per remaining string, each the current intersection restricted to that string's characters |
| PointwiseConcatenator.IntersectStepSubsequence | SOURCE/pointwise_datasets_concatenator.py:26-30 | one step keeps the intersection a subsequence of the first string |
| PointwiseConcatenator.IntersectStepSame | SOURCE/pointwise_datasets_concatenator.py:26-30 | on equal strings one step leaves the intersection unchanged |
| PointwiseConcatenator.Intersect | SOURCE/pointwise_datasets_concatenator.py:24-31 | the intersection of no strings is absent. Otherwise it is a subsequence of the first string whose characters all occur in the last, and it is the string itself when all strings are equal |
| PointwiseConcatenator.SubsequenceReflexive | SOURCE/pointwise_datasets_concatenator.py:25 | a string is a subsequence of itself |
| PointwiseConcatenator.KeptFiles | SOURCE/pointwise_datasets_concatenator.py:148-290 | the kept files come from the input, are readable, have more than one record and overlap the date window |
| PointwiseConcatenator.Starts | SOURCE/pointwise_datasets_concatenator.py:309 | one start time per file |
| PointwiseConcatenator.SelectFiles | SOURCE/pointwise_datasets_concatenator.py:128-336 | the selection fails exactly when the first date is after the last, a file is unreadable or no file is kept. Otherwise it is the kept files ordered by start time |
| PointwiseConcatenator.CutFiles | SOURCE/pointwise_datasets_concatenator.py:148-314 | the first pass fails exactly when some file lacks a coordinate or a record dimension, and otherwise keeps exactly the files of the specification, in input order |
| PointwiseConcatenator.OverlapSymmetric | SOURCE/pointwise_datasets_concatenator.py:344-345 | two files' time ranges overlap in either order alike |
| PointwiseConcatenator.TimeInterceptions | SOURCE/pointwise_datasets_concatenator.py:339-346 | each file's list holds, increasing, exactly the other files whose time ranges overlap its own |
| PointwiseConcatenator.OverlappingFiles | SOURCE/pointwise_datasets_concatenator.py:341-346 | the inner loop collects, increasing, exactly the other files overlapping the given one |
| PointwiseConcatenator.MaxMagnitude | SOURCE/pointwise_datasets_concatenator.py:589-590 | the largest magnitude bounds every fill value, and it or its negation is one of them |
| PointwiseConcatenator.ChooseFill | SOURCE/pointwise_datasets_concatenator.py:585-597 | there is no fill value exactly when no file gives one. Otherwise it is one of the given values, the one of largest magnitude, and positive when both signs are given |
| PointwiseConcatenator.FirstTimeVariable | SOURCE/pointwise_datasets_concatenator.py:817-826 | the first variable dimensioned by the record dimension, or none when no variable is |
| PointwiseConcatenator.SkipIndices | SOURCE/pointwise_datasets_concatenator.py:812-828 | each file is skipped exactly when its first record-dimensioned variable is fully masked or it has none |
| PointwiseConcatenator.SkipFile | SOURCE/pointwise_datasets_concatenator.py:816-826 | the inner loop stops at the first record-dimensioned variable and decides the skip by its mask |
| PointwiseConcatenator.FirstTimeVariableAt | SOURCE/pointwise_datasets_concatenator.py:817-826 | a record-dimensioned variable with none before it is the first one |
| PointwiseConcatenator.KeptWithData | SOURCE/pointwise_datasets_concatenator.py:823-826 | a file whose first record-dimensioned variable has an unmasked value is not skipped |
| PointwiseConcatenator.QuietSingleFileNotCopied | SOURCE/pointwise_datasets_concatenator.py:358-362 | with a single file left and verbose off, nothing is written |
| PointwiseConcatenator.SingleFilePlan | SOURCE/pointwise_datasets_concatenator.py:358-365 | a single file is copied and several files are concatenated |
| MetadataMerger.Prefer | SOURCE/obs_postpro/metadata_merger.py:571-574 | the update's value wins unless it is empty, in which case the base value stays |
| MetadataMerger.PreferBase | SOURCE/obs_postpro/metadata_merger.py:591-594 | the base value stays exactly when the base is dominant, the update is empty or the two agree, and otherwise the update's value is taken |
| MetadataMerger.FirstIndex | SOURCE/obs_postpro/metadata_merger.py:569 | the first position of the key, or none exactly when the key is absent |
| MetadataMerger.Keys | SOURCE/obs_postpro/metadata_merger.py:326-338 | the key column, one entry per row |
| MetadataMerger.MergedRow | SOURCE/obs_postpro/metadata_merger.py:422-517 | a base row fails to merge exactly when the update row with its key differs in the checked column, the units of a variable. Otherwise it keeps its id, key and column count, and stays unchanged when the update lacks its key |
| MetadataMerger.MergedBase | SOURCE/obs_postpro/metadata_merger.py:393-522 | the merged base rows keep the base ids and keys, in order |
| MetadataMerger.MergedBaseFailsIffConflict | SOURCE/obs_postpro/metadata_merger.py:484-517 | merging the base rows fails exactly when some base row conflicts |
| MetadataMerger.MergedBaseErrorStays | SOURCE/obs_postpro/metadata_merger.py:509-514 | once a conflict stops the merge, later rows do not change the error |
| MetadataMerger.UpdateOnly | SOURCE/obs_postpro/metadata_merger.py:326-338 | no more new rows than update rows |
| MetadataMerger.UpdateOnlyMembers | SOURCE/obs_postpro/metadata_merger.py:326-338 | the new rows are exactly the update rows whose key the base lacks |
| MetadataMerger.Renumber | SOURCE/obs_postpro/metadata_merger.py:411-416 | the new rows are numbered consecutively after the given id, keeping their key and columns |
| MetadataMerger.RenumberAppend | SOURCE/obs_postpro/metadata_merger.py:411-416 | numbering one more row appends it with the next id |
| MetadataMerger.MaxId | SOURCE/obs_postpro/metadata_merger.py:408-410 | the largest id among the rows, which some row has |
| MetadataMerger.SameMax | SOURCE/obs_postpro/metadata_merger.py:408-410 | tables with the same ids have the same largest id |
| MetadataMerger.MergeBaseRows | SOURCE/obs_postpro/metadata_merger.py:422-457 | the loop over the base rows computes exactly the merged base |
| MetadataMerger.MergedBaseStep | SOURCE/obs_postpro/metadata_merger.py:422-457 | one loop step appends the next merged row, or keeps the first error |
| MetadataMerger.NumberNewRows | SOURCE/obs_postpro/metadata_merger.py:461-478 | the loop over the new keys appends exactly the update-only rows, numbered on from the given id |
| MetadataMerger.NumberNewRowsStep | SOURCE/obs_postpro/metadata_merger.py:469-478 | one loop step appends the next update-only row with the next id, or skips a key the base has |
| MetadataMerger.KeysAppend | SOURCE/obs_postpro/metadata_merger.py:399-416 | the keys of two joined tables are the joined keys |
| MetadataMerger.MergeTable | SOURCE/obs_postpro/metadata_merger.py:393-542 | the table merge computes exactly the merged base rows, followed, when the base is not dominant, by the update-only rows numbered on from the largest base id |
| MetadataMerger.MergedTableKeys | SOURCE/obs_postpro/metadata_merger.py:393-542 | the merged table's keys are the base keys followed, unless the base is dominant, by the keys only the update has |
| MetadataMerger.NewIdsFresh | SOURCE/obs_postpro/metadata_merger.py:403-416 | base rows keep their ids, new rows get consecutive ids above every base id |
| MetadataMerger.MergeDepths | SOURCE/obs_postpro/metadata_merger.py:684-698 | a dominant base keeps its depths. Otherwise the merge fails exactly when either side's depths are not numbers |
| MetadataMerger.MergeDepthsUnion | SOURCE/obs_postpro/metadata_merger.py:689-690 | numeric depths merge into the increasing union of both lists |
| MetadataMerger.MergeQc | SOURCE/obs_postpro/metadata_merger.py:700-709 | the merged quality control class is FULL, INVERTED, NO or PARTIAL |
| MetadataMerger.MergeQcClasses | SOURCE/obs_postpro/metadata_merger.py:700-709 | FULL exactly when both are FULL, INVERTED exactly when the base is INVERTED and the update INVERTED or NO, and NO exactly when both are NO |
| MetadataMerger.MergeQcOrderMatters | SOURCE/obs_postpro/metadata_merger.py:704-709 | the merge is not symmetric: INVERTED with NO gives INVERTED, NO with INVERTED gives PARTIAL |
| MetadataMerger.FirstWords | SOURCE/obs_postpro/metadata_merger.py:713 | the first n words are a prefix of the note with fewer than n spaces, cut right before the n-th space |
| MetadataMerger.MergeNotes | SOURCE/obs_postpro/metadata_merger.py:711-736 | the note pieces are built in order: the renaming words, the record findings, the level findings |
| MetadataMerger.AddRecordFindings | SOURCE/obs_postpro/metadata_merger.py:715-731 | the record if-chain appends exactly its finding |
| MetadataMerger.AddLevelsFinding | SOURCE/obs_postpro/metadata_merger.py:733-736 | the level if-chain appends exactly its finding |
| MetadataMerger.RecordPartIsUnion | SOURCE/obs_postpro/metadata_merger.py:715-731 | for notes that carry the combined finding whenever they report both, the merged record finding reports duplicates exactly when either note does, and reversals likewise |
| MetadataMerger.NotAveragedFirst | SOURCE/obs_postpro/metadata_merger.py:733-736 | a not-averaged note on either side wins over a sensor replacement |
| MetadataMerger.MergedRecord | SOURCE/obs_postpro/metadata_merger.py:643-736 | merging a shared variable fails exactly when its depths cannot be merged, and keeps its standard name |
| MetadataMerger.MergedRecordBounds | SOURCE/obs_postpro/metadata_merger.py:674-683 | the merged position lies between the two, the merged period spans both and starts and ends at one of theirs, and the sampling is kept when equal and marked variable when not |
| MetadataMerger.MergedRecordSymmetric | SOURCE/obs_postpro/metadata_merger.py:674-683 | when not dominant, position, period and variable-sampling mark do not depend on which side is the base |
| MetadataMerger.MergedRecordIs | SOURCE/obs_postpro/metadata_merger.py:674-736 | the merged variable is the mean position, the earliest start, the latest end, the merged sampling, depths, class and notes |
| MetadataMerger.MergeRecord | SOURCE/obs_postpro/metadata_merger.py:643-736 | the merge of one shared variable computes exactly the merged record |
| MetadataMerger.Names | SOURCE/obs_postpro/metadata_merger.py:629-631 | one standard name per variable |
| MetadataMerger.MergedOrCopied | SOURCE/obs_postpro/metadata_merger.py:657-750 | a base variable keeps its standard name whether merged or copied |
| MetadataMerger.MergedBaseRecords | SOURCE/obs_postpro/metadata_merger.py:643-760 | the merged base variables keep the base names, in order |
| MetadataMerger.UpdateOnlyRecords | SOURCE/obs_postpro/metadata_merger.py:629-631 | no more new variables than update variables |
| MetadataMerger.UpdateOnlyRecordsMembers | SOURCE/obs_postpro/metadata_merger.py:629-631 | the new variables are exactly those of the update whose name the base lacks |
| MetadataMerger.MergedRecords | SOURCE/obs_postpro/metadata_merger.py:643-784 | the merge of a probe's variables fails exactly when a base variable fails to merge |
| MetadataMerger.MergedRecordsNames | SOURCE/obs_postpro/metadata_merger.py:643-784 | the merged variables are named as the base, followed, unless the base is dominant, by the names only the update has |
| MetadataMerger.MergeBaseRecords | SOURCE/obs_postpro/metadata_merger.py:643-760 | the loop over the base variables computes exactly the merged base variables |
| MetadataMerger.CopyNewRecords | SOURCE/obs_postpro/metadata_merger.py:762-784 | the loop over new names appends exactly the update-only variables |
| MetadataMerger.MergedBaseRecordsStep | SOURCE/obs_postpro/metadata_merger.py:643-760 | one loop step appends the next merged variable, or keeps the first error |
| MetadataMerger.UpdateOnlyRecordsStep | SOURCE/obs_postpro/metadata_merger.py:763-784 | one loop step appends the next update-only variable, or skips a name the base has |
| MetadataMerger.MergeRecords | SOURCE/obs_postpro/metadata_merger.py:643-784 | the variable merge of one probe computes exactly the merged variables |
| MetadataMerger.MergedRecordsErrorStays | SOURCE/obs_postpro/metadata_merger.py:693-698 | once a variable fails, later variables do not change the error |
| MetadataMerger.Codes | SOURCE/obs_postpro/metadata_merger.py:338 | one platform code per probe |
| MetadataMerger.MergedProbe | SOURCE/obs_postpro/metadata_merger.py:566-784 | a shared probe keeps its id and platform code |
| MetadataMerger.MergedBaseProbes | SOURCE/obs_postpro/metadata_merger.py:546-813 | the merged base probes keep their ids and codes, in order |
| MetadataMerger.MergedOrCopiedProbe | SOURCE/obs_postpro/metadata_merger.py:566-801 | a base probe keeps its id and code whether merged or copied |
| MetadataMerger.UpdateOnlyProbes | SOURCE/obs_postpro/metadata_merger.py:337-338 | no more new probes than update probes |
| MetadataMerger.UpdateOnlyProbesMembers | SOURCE/obs_postpro/metadata_merger.py:337-338 | the new probes are exactly those of the update whose code the base lacks |
| MetadataMerger.RenumberProbes | SOURCE/obs_postpro/metadata_merger.py:822-824 | new probes are numbered on from the given count |
| MetadataMerger.RenumberProbesAppend | SOURCE/obs_postpro/metadata_merger.py:823-852 | numbering one more probe appends it with the next id |
| MetadataMerger.MergedProbes | SOURCE/obs_postpro/metadata_merger.py:546-852 | the merged probes start with the base codes in order. When the base is not dominant, new probe k gets id k+1; when it is, no probe is added |
| MetadataMerger.MergeProbe | SOURCE/obs_postpro/metadata_merger.py:566-801 | merging one shared probe computes exactly the merged probe |
| MetadataMerger.MergeBaseProbes | SOURCE/obs_postpro/metadata_merger.py:546-813 | the loop over base probes computes exactly the merged base probes |
| MetadataMerger.NumberNewProbes | SOURCE/obs_postpro/metadata_merger.py:817-852 | the loop over new codes appends exactly the update-only probes, numbered on from the base count |
| MetadataMerger.MergedBaseProbesStep | SOURCE/obs_postpro/metadata_merger.py:546-813 | one loop step appends the next merged probe, or keeps the first error |
| MetadataMerger.NumberNewProbesStep | SOURCE/obs_postpro/metadata_merger.py:823-852 | one loop step appends the next update-only probe with the next id, or skips a code the base has |
| MetadataMerger.MergeProbes | SOURCE/obs_postpro/metadata_merger.py:546-852 | the probe merge computes exactly the merged probes |
| MetadataMerger.MergedProbesErrorStays | SOURCE/obs_postpro/metadata_merger.py:693-698 | once a probe fails to merge, later probes do not change the error |
| MetadataMerger.ProbeIdsCanRepeat | SOURCE/obs_postpro/metadata_merger.py:822-824 | new probes are numbered from the row count and not from the largest id, so a base probe with id 2 and one new probe share id 2 |
| MetadataMerger.IdOf | SOURCE/obs_postpro/metadata_merger.py:872-881 | the id of the first row with the key, absent exactly when no row has it |
| MetadataMerger.VariableIds | SOURCE/obs_postpro/metadata_merger.py:877-882 | the variable ids succeed exactly when every standard name is in the variables table, and are the ids of those names in order |
| MetadataMerger.ProbeRows | SOURCE/obs_postpro/metadata_merger.py:865-901 | every merged probe is written with the ids of its device type, organisation and variables. The step succeeds exactly when every name a probe uses is in its table |
| MetadataMerger.MetadataMerger | SOURCE/obs_postpro/metadata_merger.py:42-903 | the run succeeds exactly when the three tables and the probes merge and every probe name resolves in the merged tables. The output tables are then the merged ones and every probe row is the matching merged probe with ids |
| InsituPreProcessing.RegionOrDefault | SOURCE/obs_postpro/insitu_tac_pre_processing.py:216-224 | a missing region string stands for the whole globe (-180 180 -90 90); a given one is used unchanged |
| InsituPreProcessing.SeaMasking | SOURCE/obs_postpro/insitu_tac_pre_processing.py:226-248 | without Mediterranean masking no sea is masked; with it the Marmara and Azov seas are masked exactly when the region reaches their boxes, and the Biscay gulf only when the region reaches it |
| InsituPreProcessing.UnmaskedArea | SOURCE/obs_postpro/insitu_tac_pre_processing.py:532-535 | with no sea masking a probe is out of area exactly when its mean position lies outside the open region box |
| InsituPreProcessing.MaskedSeasExcluded | SOURCE/obs_postpro/insitu_tac_pre_processing.py:536-543 | with Mediterranean masking on, a probe inside the Marmara, Black or Azov sea box is always out of area, whatever the region |
| InsituPreProcessing.BlackSeaLatitudeHarmless | SOURCE/obs_postpro/insitu_tac_pre_processing.py:241 | the Black Sea switch tests the Marmara minimum latitude; replacing it by the Black Sea one never changes the out-of-area verdict |
| InsituPreProcessing.BlackSeaQuirkExample | SOURCE/obs_postpro/insitu_tac_pre_processing.py:241 | a region (28..30 E, 40..40.5 N) switches Black Sea masking on although it does not reach the Black Sea box |
| InsituPreProcessing.NormalLongitude | SOURCE/obs_postpro/insitu_tac_pre_processing.py:485-486 | a mean longitude above 180 is shifted by -360; any longitude up to 540 lands in (-180, 180] |
| InsituPreProcessing.NormalLatitude | SOURCE/obs_postpro/insitu_tac_pre_processing.py:489-490 | a mean latitude above 90 is shifted by -180; any latitude up to 270 lands in (-90, 90] |
| InsituPreProcessing.NormalIdempotent | SOURCE/obs_postpro/insitu_tac_pre_processing.py:485-490 | normalising an already normalised position changes nothing |
| InsituPreProcessing.FirstNear | SOURCE/obs_postpro/insitu_tac_pre_processing.py:491-497 | the first names-file row within the duplicate threshold in both coordinates, or none exactly when no row is that near |
| InsituPreProcessing.DetectCsvName | SOURCE/obs_postpro/insitu_tac_pre_processing.py:491-497 | the loop returns the name of the first near row, and no name when none is near |
| InsituPreProcessing.OutPlatformName | SOURCE/obs_postpro/insitu_tac_pre_processing.py:1329-1332 | a name from the names file wins; otherwise the finder's name unless it is empty or a blank, in which case the platform code |
| InsituPreProcessing.PlatformType | SOURCE/obs_postpro/insitu_tac_pre_processing.py:474-479 | a missing, empty or blank source becomes 'undefined'; the type is never empty or blank |
| InsituPreProcessing.Platform | SOURCE/obs_postpro/insitu_tac_pre_processing.py:507-756 | a platform proceeds exactly when it was not concatenated before, its type is selected, its normalised mean position is in the area and it has at least the minimum number of records; an out-of-area verdict implies the position is out of area |
| InsituPreProcessing.QcClass | SOURCE/obs_postpro/insitu_tac_pre_processing.py:980-987 | the class is one of INVERTED, FULL, NO, PARTIAL |
| InsituPreProcessing.ListedLevelsExact | SOURCE/obs_postpro/insitu_tac_pre_processing.py:907-910 | a level number is listed exactly when it is between 1 and the level count and that level has valid or unchecked data; the list is strictly increasing |
| InsituPreProcessing.ClassifyLevels | SOURCE/obs_postpro/insitu_tac_pre_processing.py:894-987 | the level loop returns the listed levels and the class of the whole variable |
| InsituPreProcessing.QcClassMeaning | SOURCE/obs_postpro/insitu_tac_pre_processing.py:922-987 | INVERTED exactly when every level is unlisted or flagged by zero; FULL exactly when every level is unlisted, flagged by zero or controlled and one is controlled; NO exactly when every level is unlisted, flagged by zero or uncontrolled and one is uncontrolled |
| InsituPreProcessing.TimeParts | SOURCE/obs_postpro/insitu_tac_pre_processing.py:1234 | an in-day time splits into hours, minutes and seconds below 24, 60, 60 that add back to it |
| InsituPreProcessing.SplitDays | SOURCE/obs_postpro/insitu_tac_pre_processing.py:1232-1233 | seconds split into whole days and a remainder below one day that add back to the seconds |
| InsituPreProcessing.SplitDaysDivides | SOURCE/obs_postpro/insitu_tac_pre_processing.py:1232-1233 | the split is floor division and remainder by 86400 |
| InsituPreProcessing.DivisionUnique | SOURCE/obs_postpro/insitu_tac_pre_processing.py:1232-1233 | a quotient and remainder below 86400 that add back to a number are its floor division and remainder |
| InsituPreProcessing.SamplingText | SOURCE/obs_postpro/insitu_tac_pre_processing.py:1235-1264 | no text exactly when the sampling is 999 days or more |
| InsituPreProcessing.SamplingTimeAsWritten | SOURCE/obs_postpro/insitu_tac_pre_processing.py:1235-1264 | the script's formatting with its 9 and 99 day thresholds gives no text exactly at 999 days or more |
| InsituPreProcessing.SamplingTime | SOURCE/obs_postpro/insitu_tac_pre_processing.py:1235-1264 | the three-digit day formatting gives no text exactly at 999 days or more |
| InsituPreProcessing.SamplingSeconds | SOURCE/obs_postpro/insitu_tac_pre_processing.py:1235-1240 | reading back a 'DDD HH:MM:SS' text yields a non-negative number of seconds |
| InsituPreProcessing.TwoDigitsValue | SOURCE/obs_postpro/insitu_tac_pre_processing.py:1234 | a number below 100 is written as two digits that read back to it |
| InsituPreProcessing.ClockLayout | SOURCE/obs_postpro/insitu_tac_pre_processing.py:1234 | three two-character fields joined by colons sit at fixed positions of an eight-character text |
| InsituPreProcessing.ClockTextValue | SOURCE/obs_postpro/insitu_tac_pre_processing.py:1234 | an HH:MM:SS text has colons at positions 2 and 5 and its digit fields read back to the hours, minutes and seconds |
| InsituPreProcessing.ClockValue | SOURCE/obs_postpro/insitu_tac_pre_processing.py:1234 | the HH:MM:SS text of an in-day time reads back to that time in seconds |
| InsituPreProcessing.DaysTextValue | SOURCE/obs_postpro/insitu_tac_pre_processing.py:1235-1240 | below 999 days, the zero-padded day count is three digits that read back to it |
| InsituPreProcessing.SamplingLayout | SOURCE/obs_postpro/insitu_tac_pre_processing.py:1236 | the day text, a space and the clock text sit at fixed positions of a twelve-character text |
| InsituPreProcessing.SamplingTimeRoundTrip | SOURCE/obs_postpro/insitu_tac_pre_processing.py:1231-1240 | below 999 days the sampling text reads back to exactly the sampling seconds |
| InsituPreProcessing.PartsReadBack | SOURCE/obs_postpro/insitu_tac_pre_processing.py:1231-1240 | a day count and in-day clock, formatted, read back to days times 86400 plus the clock |
| InsituPreProcessing.ReadBack | SOURCE/obs_postpro/insitu_tac_pre_processing.py:1236 | a well-formed day and clock text reads back to its days and clock |
| InsituPreProcessing.TwoDigitsZero | SOURCE/obs_postpro/insitu_tac_pre_processing.py:1234 | zero is written '00' |
| InsituPreProcessing.ClockTextZero | SOURCE/obs_postpro/insitu_tac_pre_processing.py:1234 | midnight fields are written '00:00:00' |
| InsituPreProcessing.MidnightClock | SOURCE/obs_postpro/insitu_tac_pre_processing.py:1234 | zero seconds is written '00:00:00' |
| InsituPreProcessing.NineDaysText | SOURCE/obs_postpro/insitu_tac_pre_processing.py:1235-1238 | the script's thresholds write nine days as '09'; the three-digit formatting writes '009' |
| InsituPreProcessing.NineDaysSplit | SOURCE/obs_postpro/insitu_tac_pre_processing.py:1232-1233 | nine days of seconds split into nine days and no remainder |
| InsituPreProcessing.NineDaysAsWritten | SOURCE/obs_postpro/insitu_tac_pre_processing.py:1235-1238 | a nine-day sampling is written '09 00:00:00' as the script stands |
| InsituPreProcessing.NineDaysCorrected | SOURCE/obs_postpro/insitu_tac_pre_processing.py:1235-1240 | a nine-day sampling is written '009 00:00:00' by the three-digit formatting |
| InsituPreProcessing.SamplingTimeNineDays | SOURCE/obs_postpro/insitu_tac_pre_processing.py:1235-1238 | the script writes a nine-day sampling as '09 00:00:00', which does not read back, while the corrected text is '009 00:00:00' |
| InsituPreProcessing.SamplingTimeAgrees | SOURCE/obs_postpro/insitu_tac_pre_processing.py:1235-1240 | for every sampling other than 9 or 99 whole days the script's text equals the three-digit formatting |
| InsituPreProcessing.FieldOutcome | SOURCE/obs_postpro/insitu_tac_pre_processing.py:829-1282 | a kept field carries its own standard name and one of the four qc classes |
| InsituPreProcessing.FieldKeptExactly | SOURCE/obs_postpro/insitu_tac_pre_processing.py:858-1264 | a field is kept exactly when it was extracted, the qc file exists, some level is listed, enough distinct times remain, both mean coordinates are valid, a fixed probe has depth levels, the span reaches the minimum days outside update mode and the sampling is below 999 days; a kept field's sampling text reads back to its seconds |
| InsituPreProcessing.KeptRows | SOURCE/obs_postpro/insitu_tac_pre_processing.py:829-1282 | the kept rows are at most as many as the fields |
| InsituPreProcessing.SamplingColumn | SOURCE/obs_postpro/insitu_tac_pre_processing.py:1338 | the corrected sampling column holds each kept row's sampling text in order |
| InsituPreProcessing.NameColumn | SOURCE/obs_postpro/insitu_tac_pre_processing.py:1313-1316 | the name column holds each kept row's name in order |
| InsituPreProcessing.CollectFields | SOURCE/obs_postpro/insitu_tac_pre_processing.py:829-1282 | the field loop returns the kept rows and the sampling list of the specification, whose sampling time is the three-digit form |
| InsituPreProcessing.SamplingColumnAsWrittenShape | SOURCE/obs_postpro/insitu_tac_pre_processing.py:1207-1264 | the script's sampling list has one extra empty entry per field dropped for a short span or a too long sampling, and equals the corrected column when no field is dropped that way |
| InsituPreProcessing.StaleSamplingExample | SOURCE/obs_postpro/insitu_tac_pre_processing.py:1207-1230 | a short-span field followed by a kept one leaves '' as the first sampling entry beside the kept field's name |
| InsituPreProcessing.SamplingTimeHasNoSeparator | SOURCE/obs_postpro/insitu_tac_pre_processing.py:1338 | a sampling text never contains the ';' column separator |
| InsituPreProcessing.ProbeColumnsAligned | SOURCE/obs_postpro/insitu_tac_pre_processing.py:1334-1339 | splitting the ';'-joined name and sampling columns at ';' gives back one entry per kept field |
| InsituPreProcessing.FirstNamed | SOURCE/obs_postpro/insitu_tac_pre_processing.py:1292-1294 | the first table row with the name, or none exactly when no row has it |
| InsituPreProcessing.AssignId | SOURCE/obs_postpro/insitu_tac_pre_processing.py:1286-1295 | a new name gets the next counter value as id and is appended; a known name keeps table and counter and returns the first match's id; the result is always a row of the table |
| InsituPreProcessing.AssignIdKeepsNumbering | SOURCE/obs_postpro/insitu_tac_pre_processing.py:1286-1309 | ids stay distinct and below the counter, and a newly assigned id differs from every earlier one |
| InsituPreProcessing.AssignIdStable | SOURCE/obs_postpro/insitu_tac_pre_processing.py:1286-1309 | assigning the same name twice returns the same id and changes nothing the second time |
| InsituPreProcessing.AssignIdIsTheRow | SOURCE/obs_postpro/insitu_tac_pre_processing.py:1292-1295 | the id assigned to a known name is its row's id |
| InsituPreProcessing.HeaderNameQuirk | SOURCE/obs_postpro/insitu_tac_pre_processing.py:1286-1294 | the tables keep their header row, so a device or organization called 'name' receives the header instead of an id |
| InsituPreProcessing.AddVariable | SOURCE/obs_postpro/insitu_tac_pre_processing.py:1317-1327 | a known variable id leaves the table unchanged; a new one is appended |
| InsituPreProcessing.AddVariableKeepsIds | SOURCE/obs_postpro/insitu_tac_pre_processing.py:1317-1327 | variable ids stay distinct and the added id is in the table |
| VerticalInterpolation.FirstKnown | SOURCE/model_postpro/vertical_interpolation.py:49-152 | the first candidate name the dataset has, or none (the run stops) exactly when it has none of them |
| VerticalInterpolation.ValidAt | SOURCE/model_postpro/vertical_interpolation.py:182 | a level holds data exactly when some time step has an unmasked value there |
| VerticalInterpolation.LastValid | SOURCE/model_postpro/vertical_interpolation.py:179-184 | the deepest level of one variable holding data, or -1 when none does; no deeper level holds data |
| VerticalInterpolation.DeepestIsLast | SOURCE/model_postpro/vertical_interpolation.py:171-184 | over all time-and-depth variables, the result is -1 or a level some variable holds data at, and no such variable holds data below it |
| VerticalInterpolation.LastTrueDepthIndex | SOURCE/model_postpro/vertical_interpolation.py:171-184 | the scan over variables and levels returns that deepest level |
| VerticalInterpolation.BottomCopyWithinFifth | SOURCE/model_postpro/vertical_interpolation.py:203-206 | for a non-negative bottom depth, the 10 % rule above 700 m adds nothing: an output depth copies the bottom exactly when it lies strictly between the bottom and 1.2 times it |
| VerticalInterpolation.Level | SOURCE/model_postpro/vertical_interpolation.py:203 | the bottom level used for the copy is a real input level; -1 picks the last one, as Python indexing does |
| VerticalInterpolation.SurfaceIndices | SOURCE/model_postpro/vertical_interpolation.py:198-201 | the output depths copying the surface, in increasing order, exactly those shallower than the first input depth |
| VerticalInterpolation.BottomIndices | SOURCE/model_postpro/vertical_interpolation.py:202-207 | the output depths copying the bottom, exactly those satisfying the bottom rule, in decreasing order |
| VerticalInterpolation.CopyIndices | SOURCE/model_postpro/vertical_interpolation.py:196-207 | fails exactly when there is no input depth but some output depth; otherwise an output depth is in the surface or bottom list exactly when its rule holds |
| VerticalInterpolation.OutDataAsWritten | SOURCE/model_postpro/vertical_interpolation.py:274-294 | without a depth dimension the input is kept; a single input level onto several output levels stops the run; a single level onto a single level keeps whatever the previous variable left |
| VerticalInterpolation.StaleSingleLevel | SOURCE/model_postpro/vertical_interpolation.py:288-294 | as written, a single-level variable interpolated onto one level receives the previous variable's values; the corrected output keeps its own values |
| VerticalInterpolation.OutData | SOURCE/model_postpro/vertical_interpolation.py:274-294 | without depth the input is kept; several input levels give as many records as the interpolation; no level, or one level onto several, is an error; otherwise every output depth of every record repeats the input's only level |
| VerticalInterpolation.CopyColumn | SOURCE/model_postpro/vertical_interpolation.py:295-308 | one output column receives the chosen input level at every time step and nothing else changes |
| VerticalInterpolation.CopyLevels | SOURCE/model_postpro/vertical_interpolation.py:295-308 | every surface column receives the first input level and every bottom column the deepest one, later copies winning; other columns are unchanged |
| ModelConcatenator.ModelTime | SOURCE/model_postpro/model_datasets_concatenator.py:206-215 | a model time is a multiple of 600 s within 300.5 s of the raw time, converted from days or seconds and shifted by the reference |
| ModelConcatenator.ModelTimeOfWholeDays | SOURCE/model_postpro/model_datasets_concatenator.py:206-215 | with a reference on the 600 s grid, n whole days become exactly n times 86400 s after the reference |
| ModelConcatenator.ModelTimes | SOURCE/model_postpro/model_datasets_concatenator.py:205-215 | time units other than days or seconds fail; otherwise every raw time becomes its model time, one for one |
| ModelConcatenator.RecordTypeOf | SOURCE/model_postpro/model_datasets_concatenator.py:233-244 | one record is a daily mean and 24 an hourly mean, failing when that differs from the saved type; any other count keeps the saved type and fails when there is none |
| ModelConcatenator.Screen | SOURCE/model_postpro/model_datasets_concatenator.py:205-244 | a used dataset keeps one model time per raw time with at most one zero time, agrees with the saved record type, ends at or after the first date and starts before the last one |
| ModelConcatenator.Invert | SOURCE/model_postpro/model_datasets_concatenator.py:318-319 | the peak period is the reciprocal of the peak frequency, masked exactly when the frequency is masked or zero |
| ModelConcatenator.InvertTwice | SOURCE/model_postpro/model_datasets_concatenator.py:318-319 | inverting twice gives back any value that is not zero |
| ModelConcatenator.InvertAll | SOURCE/model_postpro/model_datasets_concatenator.py:318-319 | every value of the cut is inverted in place, shape kept |
| ModelConcatenator.Cuts | SOURCE/model_postpro/model_datasets_concatenator.py:503-524 | one record matrix per location, shaped like the dataset's records at that location |
| ModelConcatenator.MaskedLike | SOURCE/model_postpro/model_datasets_concatenator.py:529-531 | a fully masked matrix of the cut's shape |
| ModelConcatenator.VisitLocationAsWritten | SOURCE/model_postpro/model_datasets_concatenator.py:350-531 | a known location keeps its records and appends masked records when the switch left by the last new location is set, its cut otherwise |
| ModelConcatenator.VisitLocation | SOURCE/model_postpro/model_datasets_concatenator.py:350-531 | a rejected location is passed over; a new location far from the grid (or with no sea point) is rejected and sets the switch, a near one starts with its cut and clears it; a known one appends its cut; times and record type are unchanged |
| ModelConcatenator.StaleSwitchMasks | SOURCE/model_postpro/model_datasets_concatenator.py:383-401 | with the switch set, the written loop appends masked records to a known location where the intended one appends its data |
| ModelConcatenator.VisitLocations | SOURCE/model_postpro/model_datasets_concatenator.py:350-531 | visiting the locations of one dataset keeps the times and record type |
| ModelConcatenator.SwitchAfterRejectedLast | SOURCE/model_postpro/model_datasets_concatenator.py:383-401 | when the last location is new and far from the grid, the dataset's loop ends with the switch set |
| ModelConcatenator.VisitMonotone | SOURCE/model_postpro/model_datasets_concatenator.py:350-401 | visits only add rejections and accepted locations |
| ModelConcatenator.VisitAppends | SOURCE/model_postpro/model_datasets_concatenator.py:525-527 | a location accepted before the dataset ends with its records followed by its own cut when it is visited, and unchanged otherwise |
| ModelConcatenator.LocationKeeps | SOURCE/model_postpro/model_datasets_concatenator.py:350-531 | visiting one location leaves every other accepted location's records alone |
| ModelConcatenator.VisitCovers | SOURCE/model_postpro/model_datasets_concatenator.py:350-401 | after a dataset every visited location is either accepted or rejected |
| ModelConcatenator.VisitRejected | SOURCE/model_postpro/model_datasets_concatenator.py:352-401 | a rejected location never holds records and only table locations are visited |
| ModelConcatenator.VisitLengths | SOURCE/model_postpro/model_datasets_concatenator.py:525-531 | an accepted location's records grow by the dataset's record count |
| ModelConcatenator.VisitConsistent | SOURCE/model_postpro/model_datasets_concatenator.py:315-531 | after a used dataset every accepted location has one record per kept time and every location is accepted or rejected |
| ModelConcatenator.VisitSameOnTimes | SOURCE/model_postpro/model_datasets_concatenator.py:315 | the visits do not depend on the times kept so far |
| ModelConcatenator.VisitShaped | SOURCE/model_postpro/model_datasets_concatenator.py:503-531 | records of the model depth count stay at that depth count |
| ModelConcatenator.DatasetStep | SOURCE/model_postpro/model_datasets_concatenator.py:186-531 | one dataset only adds rejections, keeps a saved record type, adds its model times only when it has the variable and is masked or a mesh mask is given, and fails exactly when screening fails or the mesh mask shape differs |
| ModelConcatenator.VisitLocationsAsWritten | SOURCE/model_postpro/model_datasets_concatenator.py:350-531 | the written visits keep the times and record type |
| ModelConcatenator.DatasetStepAsWritten | SOURCE/model_postpro/model_datasets_concatenator.py:305-327 | as written, the times are kept or grow by the dataset's model times, added before an unmasked dataset is passed over |
| ModelConcatenator.UnmaskedTimeKept | SOURCE/model_postpro/model_datasets_concatenator.py:315-327 | an unmasked first dataset leaves its time without records as written, so the aggregate is not consistent, while the intended step adds nothing |
| ModelConcatenator.DatasetStepConsistent | SOURCE/model_postpro/model_datasets_concatenator.py:186-531 | every successful step keeps the aggregate consistent and shaped |
| ModelConcatenator.Aggregated | SOURCE/model_postpro/model_datasets_concatenator.py:186-535 | after all datasets the record type is known unless no time was kept |
| ModelConcatenator.AggregatedConsistent | SOURCE/model_postpro/model_datasets_concatenator.py:186-535 | every aggregate the loop reaches is consistent and shaped |
| ModelConcatenator.AggregatedRecordType | SOURCE/model_postpro/model_datasets_concatenator.py:233-244 | once a record type is saved, every later success keeps it |
| ModelConcatenator.AggregatedStops | SOURCE/model_postpro/model_datasets_concatenator.py:186-535 | a failure on some dataset is the run's failure, whatever follows |
| ModelConcatenator.StaleSwitchExample | SOURCE/model_postpro/model_datasets_concatenator.py:383-401 | a far second location leaves the switch set, so the next dataset's records for the first location are masked as written, and kept as intended |
| ModelConcatenator.Grid | SOURCE/model_postpro/model_datasets_concatenator.py:561-568 | the output axis counts (end - start) / step + 1 times, each start plus a whole number of steps |
| ModelConcatenator.GridEnds | SOURCE/model_postpro/model_datasets_concatenator.py:561-568 | the axis starts at the start and its last time is within one step below the end |
| ModelConcatenator.GridIncreasing | SOURCE/model_postpro/model_datasets_concatenator.py:561-568 | the axis strictly increases |
| ModelConcatenator.HalfStep | SOURCE/model_postpro/model_datasets_concatenator.py:563-568 | half a record: 43200 s for daily and 1800 s for hourly means |
| ModelConcatenator.Bounds | SOURCE/model_postpro/model_datasets_concatenator.py:570-571 | each bound pair is the time minus and plus half a step |
| ModelConcatenator.RecordStep | SOURCE/model_postpro/model_datasets_concatenator.py:561-568 | the axis step is 86400 s for daily and 3600 s for hourly means |
| ModelConcatenator.PlaceAll | SOURCE/model_postpro/model_datasets_concatenator.py:593-597 | every accepted location's records, in sorted order, are placed at their axis indices of an all-masked series |
| ModelConcatenator.Output | SOURCE/model_postpro/model_datasets_concatenator.py:537-597 | an output needs some time and no repeated time; it holds every accepted location with one record per axis time and bounds half a step around each time |
| ModelConcatenator.SortedTimes | SOURCE/model_postpro/model_datasets_concatenator.py:557-558 | without repeated times the sorted times strictly increase and are the same times |
| ModelConcatenator.OutputOnGrid | SOURCE/model_postpro/model_datasets_concatenator.py:537-597 | with some time, no repeats and every time on the record step from the first, the output exists |
| ModelConcatenator.OutputOnlyOnGrid | SOURCE/model_postpro/model_datasets_concatenator.py:572-597 | an output exists only when every time lies a whole number of record steps from the first |
| ModelConcatenator.OutputParts | SOURCE/model_postpro/model_datasets_concatenator.py:557-597 | the output axis runs from the earliest to the latest time in record steps and the records are the sorted ones placed at their axis positions |
| ModelConcatenator.OutputRecord | SOURCE/model_postpro/model_datasets_concatenator.py:572-597 | every record of an accepted location appears at the axis time equal to its own time |
| ModelConcatenator.OutputGap | SOURCE/model_postpro/model_datasets_concatenator.py:593-596 | an axis time without a record is fully masked |
| ModelConcatenator.OutputPlaces | SOURCE/model_postpro/model_datasets_concatenator.py:572-597 | every kept record lands at its own time |
| ModelConcatenator.OutputMasksGaps | SOURCE/model_postpro/model_datasets_concatenator.py:593-596 | every axis time without a record is masked at every depth |
| ModelConcatenator.OutputAxisSteps | SOURCE/model_postpro/model_datasets_concatenator.py:561-569 | the axis strictly increases in record steps from its first time |
| ModelConcatenator.OutputAxisSpan | SOURCE/model_postpro/model_datasets_concatenator.py:559-569 | the axis starts and ends at record times and spans all of them |
| ModelConcatenator.AxisSpan | SOURCE/model_postpro/model_datasets_concatenator.py:559-569 | a grid from the earliest to the latest sorted time that meets every time spans them |
| ModelConcatenator.Concatenated | SOURCE/model_postpro/model_datasets_concatenator.py:139-597 | a first date after the last date fails; an output needs some location and a successful aggregation |
| ModelConcatenator.ConcatenatedLocations | SOURCE/model_postpro/model_datasets_concatenator.py:575-578 | the output holds exactly the table locations that were not rejected for distance |
| ModelConcatenator.ConcatenatedOutput | SOURCE/model_postpro/model_datasets_concatenator.py:537-597 | the output is the aggregation's output, and that aggregate is consistent and shaped |
| ModelConcatenator.VisitAll | SOURCE/model_postpro/model_datasets_concatenator.py:350-531 | the location loop computes the locations' visits |
| ModelConcatenator.Visit | SOURCE/model_postpro/model_datasets_concatenator.py:186-531 | the loop body computes one dataset's step |
| ModelConcatenator.Concatenate | SOURCE/model_postpro/model_datasets_concatenator.py:186-597 | the whole loop and output compute the concatenation |
| ModelConcatenator.AggregateAll | SOURCE/model_postpro/model_datasets_concatenator.py:186-535 | the dataset loop computes the aggregation |
| ModelConcatenator.AggregatedPrefix | SOURCE/model_postpro/model_datasets_concatenator.py:186-535 | one more dataset is one more step of the aggregation, unless it already failed |
| ModelPostpro.FamilyFromFirst | SOURCE/model_postpro/model_postpro.py:306-311 | scanning the families from a row finds nothing exactly when no later family holds the name, and otherwise the first family holding it |
| ModelPostpro.FamilyFirst | SOURCE/model_postpro/model_postpro.py:306-311 | a name's family is empty exactly when no family holds it; otherwise it is the first family holding the name and contains it |
| ModelPostpro.FindFamily | SOURCE/model_postpro/model_postpro.py:306-311 | the lookup loop returns the name's family |
| ModelPostpro.StandardFamilies | SOURCE/model_postpro/model_postpro.py:17-18 | a temperature name gets the temperature family, a salinity name the salinity family, and any other name none |
| ModelPostpro.TemperaturePresence | SOURCE/model_postpro/model_postpro.py:304-316 | the flag is set exactly when some requested name belongs to a family holding sea water temperature |
| ModelPostpro.PortedName | SOURCE/model_postpro/model_postpro.py:339-342 | in-situ temperature is ported as potential temperature and every other name as itself; the ported name is never in-situ temperature |
| ModelPostpro.FirstShared | SOURCE/model_postpro/model_postpro.py:337 | a name shared by the family and the probe, or none exactly when they share none |
| ModelPostpro.Port | SOURCE/model_postpro/model_postpro.py:335-350 | a probe is ported exactly when it shares a name with the family or the family is salinity's while temperature is requested; a shared name is ported under its ported name; the salinity case ports temperature under the salinity name; the ported name is never in-situ temperature |
| ModelPostpro.ProbeNamesMembers | SOURCE/model_postpro/model_postpro.py:331-352 | a name is collected for a family exactly when some probe ports to it |
| ModelPostpro.AddedAllMembers | SOURCE/model_postpro/model_postpro.py:351-352 | appending names not yet listed keeps the list free of repeats, keeps its prefix, and lists exactly the old and new names |
| ModelPostpro.PortedListMembers | SOURCE/model_postpro/model_postpro.py:319-352 | the ported list has no repeats and holds exactly the names some requested field ports some probe to |
| ModelPostpro.ProbeNamesNoTemperature | SOURCE/model_postpro/model_postpro.py:339-347 | no probe is ported under the in-situ temperature name |
| ModelPostpro.PortedListNoTemperature | SOURCE/model_postpro/model_postpro.py:319-352 | the ported list never holds in-situ temperature |
| ModelPostpro.PortVariable | SOURCE/model_postpro/model_postpro.py:331-352 | the probe loop for one field appends that field's new ported names |
| ModelPostpro.PortedStandardNames | SOURCE/model_postpro/model_postpro.py:319-431 | with concatenation on, the ported list of all requested fields; otherwise the requested names unchanged |
| ModelPostpro.Derived | SOURCE/model_postpro/model_postpro.py:434-441 | the renamed list has the same length |
| ModelPostpro.DerivedNames | SOURCE/model_postpro/model_postpro.py:434-441 | names other than potential temperature are kept; with salinity listed no potential temperature remains; with both listed in-situ temperature appears; a list without repeats or in-situ temperature stays without repeats |
| ModelPostpro.DerivedPortedDistinct | SOURCE/model_postpro/model_postpro.py:319-441 | renaming the ported list never creates a repeated name |
| Placement.Positions | SOURCE/model_postpro/model_datasets_concatenator.py:572-573 | the increasing indices of the axis whose time is among the record times, exactly those |
| Placement.Filter | SOURCE/model_postpro/model_datasets_concatenator.py:572-573 | the axis times kept are exactly those that are also record times |
| Placement.PositionsRead | SOURCE/model_postpro/model_datasets_concatenator.py:572-573 | the kept indices, read on the axis, give the kept times one for one |
| Placement.PositionsPermute | SOURCE/model_postpro/model_datasets_concatenator.py:572-573 | taking the axis at the kept indices gives the kept times |
| Placement.FilterIncreasing | SOURCE/model_postpro/model_datasets_concatenator.py:572-573 | keeping part of an increasing axis leaves it increasing |
| Placement.IncreasingSame | SOURCE/model_postpro/model_datasets_concatenator.py:557-573 | two increasing sequences with the same members are equal |
| Placement.IncreasingSubset | SOURCE/model_postpro/model_datasets_concatenator.py:557-573 | an increasing sequence whose members all lie in another increasing sequence of the same length equals it |
| Placement.Assign | SOURCE/model_postpro/model_datasets_concatenator.py:596-597 | the placement keeps the length and leaves every index not assigned as it was |
| Placement.AssignPlaces | SOURCE/model_postpro/model_datasets_concatenator.py:596-597 | each record is found at its own increasing index after the placement |
| Placement.AssignWidth | SOURCE/model_postpro/model_datasets_concatenator.py:593-597 | placing records of a given width into a base of that width keeps the width |
| Placement.MaskedAll | SOURCE/model_postpro/model_datasets_concatenator.py:593-595 | an all-masked matrix of the given number of times and depths |

## Left out

- Reading and writing netCDF and CSV files, copying attributes, `np.savetxt`, creating directories, `shutil` copies, printing and `time.sleep` are I/O. Values read from files are parameters of the model, and outputs are returned as sequences and records.
- sklearn `KernelDensity`, `LinearRegression` and its R² score, and scipy `interp1d` (SOURCE/obs_postpro/time_series_post_processing.py:297-359, SOURCE/model_postpro/vertical_interpolation.py:282-287) are foreign numeric libraries. Densities, trends and interpolated values are parameters.
- The climatology's standard deviation, trend fitting and detrending arithmetic in time_series_post_processing.py are floating-point library work. The statistical gate takes those results as inputs.
- Floating point: values are exact reals. float32 casts and the rounding error of products such as the 1.1 step tolerance are not modelled.
- Numerics.RoundDecimals: its own contract states only the half-unit bound, and Numerics.RoundDecimalsScaled states the rounding rule. Rounding is exact round-half-to-even on reals. The binary representation error of `np.round`, which scales by a float power of ten, is not modelled.
- pandas `Timestamp`, `date_range`, `resample` and `Timedelta` internals, and `strptime`/`timegm` parsing: dates are integer epoch seconds, and calendar fields come from a proleptic Gregorian conversion.
- The trigonometry of `earth_distance` is not modelled. Distances between locations are parameters.
- Seawater conversions are not modelled: `ptmp_to_temp.py` and `sw.dpth` in insitu_tac_timeseries_extractor.py. When a platform has only pressure, the extractor's output depth is left unset.
- `mean_variance_nc_variable.py` is not part of this model.
- The cross-file duplicate mask merge in SOURCE/pointwise_datasets_concatenator.py:626-809 is array bookkeeping driven by dtype comparisons, and it is not modelled. The overlap graph that feeds it is.
- In SOURCE/insitu_evaluation.py:533-536, sea surface height has its time mean subtracted when one side is model data. That detail of the compared values is not modelled.
- The half-step loops at SOURCE/obs_postpro/time_averager.py:203-215 compute values that are never used, so they are not modelled.
- Plotting (SOURCE/obs_postpro/time_series_post_processing.py:611-671), the `sys.argv` parsing that runs when a script is imported, and the command-line entry points are not modelled. Each operation takes its arguments directly.
- `find_variable_name.py`, `time_from_index.py`, `real_time_concatenator.py`, `create_probes_earth_map.py`, `notebooks/download_CMEMS.py`, `setup.py` and `obs_postpro/__init__.py` are not part of this model.
- Listing files in directories and sorting platform file names are not modelled. The model receives the platform and file lists in their final order.
- MonotonicityFixer.RecordOrder: the permutation is stable (equal times keep their input order). `np.argsort`'s default quicksort promises no order among equal times, so the model fixes one of its allowed outcomes.
- ModelConcatenator.ModelTime: the contract states a bound. The result is a multiple of 600 s within 300.5 s of the exact time, where the extra half second covers the earlier rounding to whole seconds. Which multiple is chosen at a tie is not stated.
- VerticalInterpolation.OutData: with several input levels, the output is stated only by its shape: one record per input record, one value per output depth. The values come from the interpolation, which is a parameter.
- StuckTest: a masked sample is read as the 1e20 fill value, as the masked array's data holds it. It is therefore never equal to a real stuck value.
- The statistical test's density at a masked sample is masked, so the gate never rejects a masked sample.
- ModelPostpro: `set(...).intersection(...)[0]` takes an element of a set whose order Python does not fix. The model takes the first family member present among the probe names.
- RejectionStatistics: numpy's division by zero (inf or nan) is modelled as a missing percentage (None).
- TimeCheck: the modal step computed on the unsorted differences fails (`argmax` of an empty array) when there is no non-zero step. The model returns an error there.
- The climatology loaded in update mode is a parameter. The model does not read its files.
- DepthCalc.FirstPassVariable: built on the intended level filter DepthCalc.VariableGood, where fill values count as missing and matched samples are consumed. For a variable without a mask the code as written (DepthCalc.VariableGoodAsWritten, SOURCE/obs_postpro/depth_calc.py:128-157) can let a level pass on fill values and consumes no sample, and this member does not state that outcome.
- DepthCalc.FirstPass: built on the intended level filter DepthCalc.VariableGood, where fill values count as missing and matched samples are consumed. For a variable without a mask the code as written (DepthCalc.VariableGoodAsWritten, SOURCE/obs_postpro/depth_calc.py:128-157) can let a level pass on fill values and consumes no sample, and this member does not state that outcome.
- DepthCalc.FilterLevels: built on the intended level filter DepthCalc.VariableGood, where fill values count as missing and matched samples are consumed. For a variable without a mask the code as written (DepthCalc.VariableGoodAsWritten, SOURCE/obs_postpro/depth_calc.py:128-157) can let a level pass on fill values and consumes no sample, and this member does not state that outcome.
- DepthCalc.RunLevels: built on the intended level filter DepthCalc.VariableGood, where fill values count as missing and matched samples are consumed. For a variable without a mask the code as written (DepthCalc.VariableGoodAsWritten, SOURCE/obs_postpro/depth_calc.py:128-157) can let a level pass on fill values and consumes no sample, and this member does not state that outcome.
- DepthCalc.Run: built on the intended level filter DepthCalc.VariableGood, where fill values count as missing and matched samples are consumed. For a variable without a mask the code as written (DepthCalc.VariableGoodAsWritten, SOURCE/obs_postpro/depth_calc.py:128-157) can let a level pass on fill values and consumes no sample, and this member does not state that outcome.
- ModelConcatenator.DatasetStep: built on the intended ModelConcatenator.DatasetStep and ModelConcatenator.VisitLocation: a skipped unmasked dataset leaves no times, and the distance switch is reset per location. The code as written (ModelConcatenator.DatasetStepAsWritten, ModelConcatenator.VisitLocationAsWritten, SOURCE/model_postpro/model_datasets_concatenator.py:315-327 and 383-401) can leave unmatched times and masked records, and this member does not state that outcome.
- ModelConcatenator.VisitLocations: built on the intended ModelConcatenator.DatasetStep and ModelConcatenator.VisitLocation: a skipped unmasked dataset leaves no times, and the distance switch is reset per location. The code as written (ModelConcatenator.DatasetStepAsWritten, ModelConcatenator.VisitLocationAsWritten, SOURCE/model_postpro/model_datasets_concatenator.py:315-327 and 383-401) can leave unmatched times and masked records, and this member does not state that outcome.
- ModelConcatenator.VisitAll: built on the intended ModelConcatenator.DatasetStep and ModelConcatenator.VisitLocation: a skipped unmasked dataset leaves no times, and the distance switch is reset per location. The code as written (ModelConcatenator.DatasetStepAsWritten, ModelConcatenator.VisitLocationAsWritten, SOURCE/model_postpro/model_datasets_concatenator.py:315-327 and 383-401) can leave unmatched times and masked records, and this member does not state that outcome.
- ModelConcatenator.Aggregated: built on the intended ModelConcatenator.DatasetStep and ModelConcatenator.VisitLocation: a skipped unmasked dataset leaves no times, and the distance switch is reset per location. The code as written (ModelConcatenator.DatasetStepAsWritten, ModelConcatenator.VisitLocationAsWritten, SOURCE/model_postpro/model_datasets_concatenator.py:315-327 and 383-401) can leave unmatched times and masked records, and this member does not state that outcome.
- ModelConcatenator.AggregatedConsistent: built on the intended ModelConcatenator.DatasetStep and ModelConcatenator.VisitLocation: a skipped unmasked dataset leaves no times, and the distance switch is reset per location. The code as written (ModelConcatenator.DatasetStepAsWritten, ModelConcatenator.VisitLocationAsWritten, SOURCE/model_postpro/model_datasets_concatenator.py:315-327 and 383-401) can leave unmatched times and masked records, and this member does not state that outcome.
- ModelConcatenator.DatasetStepConsistent: built on the intended ModelConcatenator.DatasetStep and ModelConcatenator.VisitLocation: a skipped unmasked dataset leaves no times, and the distance switch is reset per location. The code as written (ModelConcatenator.DatasetStepAsWritten, ModelConcatenator.VisitLocationAsWritten, SOURCE/model_postpro/model_datasets_concatenator.py:315-327 and 383-401) can leave unmatched times and masked records, and this member does not state that outcome.
- ModelConcatenator.VisitAppends: built on the intended ModelConcatenator.DatasetStep and ModelConcatenator.VisitLocation: a skipped unmasked dataset leaves no times, and the distance switch is reset per location. The code as written (ModelConcatenator.DatasetStepAsWritten, ModelConcatenator.VisitLocationAsWritten, SOURCE/model_postpro/model_datasets_concatenator.py:315-327 and 383-401) can leave unmatched times and masked records, and this member does not state that outcome.
- ModelConcatenator.Concatenated: built on the intended ModelConcatenator.DatasetStep and ModelConcatenator.VisitLocation: a skipped unmasked dataset leaves no times, and the distance switch is reset per location. The code as written (ModelConcatenator.DatasetStepAsWritten, ModelConcatenator.VisitLocationAsWritten, SOURCE/model_postpro/model_datasets_concatenator.py:315-327 and 383-401) can leave unmatched times and masked records, and this member does not state that outcome.
- ModelConcatenator.ConcatenatedOutput: built on the intended ModelConcatenator.DatasetStep and ModelConcatenator.VisitLocation: a skipped unmasked dataset leaves no times, and the distance switch is reset per location. The code as written (ModelConcatenator.DatasetStepAsWritten, ModelConcatenator.VisitLocationAsWritten, SOURCE/model_postpro/model_datasets_concatenator.py:315-327 and 383-401) can leave unmatched times and masked records, and this member does not state that outcome.
- ModelConcatenator.Concatenate: built on the intended ModelConcatenator.DatasetStep and ModelConcatenator.VisitLocation: a skipped unmasked dataset leaves no times, and the distance switch is reset per location. The code as written (ModelConcatenator.DatasetStepAsWritten, ModelConcatenator.VisitLocationAsWritten, SOURCE/model_postpro/model_datasets_concatenator.py:315-327 and 383-401) can leave unmatched times and masked records, and this member does not state that outcome.
- ModelConcatenator.AggregateAll: built on the intended ModelConcatenator.DatasetStep and ModelConcatenator.VisitLocation: a skipped unmasked dataset leaves no times, and the distance switch is reset per location. The code as written (ModelConcatenator.DatasetStepAsWritten, ModelConcatenator.VisitLocationAsWritten, SOURCE/model_postpro/model_datasets_concatenator.py:315-327 and 383-401) can leave unmatched times and masked records, and this member does not state that outcome.
- ModelConcatenator.Visit: built on the intended ModelConcatenator.DatasetStep and ModelConcatenator.VisitLocation: a skipped unmasked dataset leaves no times, and the distance switch is reset per location. The code as written (ModelConcatenator.DatasetStepAsWritten, ModelConcatenator.VisitLocationAsWritten, SOURCE/model_postpro/model_datasets_concatenator.py:315-327 and 383-401) can leave unmatched times and masked records, and this member does not state that outcome.
- InsituPreProcessing.FieldOutcome: built on the intended three-digit InsituPreProcessing.SamplingTime. For sampling times of 9 to 9.99 days and of 99 to 99.99 days the code as written (InsituPreProcessing.SamplingTimeAsWritten, SOURCE/obs_postpro/insitu_tac_pre_processing.py:1235-1238) writes two or one digit days instead.
- InsituPreProcessing.FieldKeptExactly: built on the intended three-digit InsituPreProcessing.SamplingTime. For sampling times of 9 to 9.99 days and of 99 to 99.99 days the code as written (InsituPreProcessing.SamplingTimeAsWritten, SOURCE/obs_postpro/insitu_tac_pre_processing.py:1235-1238) writes two or one digit days instead.
- InsituPreProcessing.CollectFields: built on the intended three-digit InsituPreProcessing.SamplingTime. For sampling times of 9 to 9.99 days and of 99 to 99.99 days the code as written (InsituPreProcessing.SamplingTimeAsWritten, SOURCE/obs_postpro/insitu_tac_pre_processing.py:1235-1238) writes two or one digit days instead.
- TimeSeriesQC.GrossRejections: reads a missing institution as not ISPRA (TimeSeriesQC.IspraRule). The code raises there (TimeSeriesQC.IspraRuleAsWritten, SOURCE/obs_postpro/time_series_post_processing.py:258-264). Only TimeSeriesQC.QualityCheck, which stops with an error before any iteration, models that error, so the two agree on every run that completes.
- TimeSeriesQC.GrossRejectionsAt: reads a missing institution as not ISPRA (TimeSeriesQC.IspraRule). The code raises there (TimeSeriesQC.IspraRuleAsWritten, SOURCE/obs_postpro/time_series_post_processing.py:258-264). Only TimeSeriesQC.QualityCheck, which stops with an error before any iteration, models that error, so the two agree on every run that completes.
- TimeSeriesQC.Rejections: reads a missing institution as not ISPRA (TimeSeriesQC.IspraRule). The code raises there (TimeSeriesQC.IspraRuleAsWritten, SOURCE/obs_postpro/time_series_post_processing.py:258-264). Only TimeSeriesQC.QualityCheck, which stops with an error before any iteration, models that error, so the two agree on every run that completes.
- TimeSeriesQC.GrossTestMasks: reads a missing institution as not ISPRA (TimeSeriesQC.IspraRule). The code raises there (TimeSeriesQC.IspraRuleAsWritten, SOURCE/obs_postpro/time_series_post_processing.py:258-264). Only TimeSeriesQC.QualityCheck, which stops with an error before any iteration, models that error, so the two agree on every run that completes.
- TimeSeriesQC.Iterate: reads a missing institution as not ISPRA (TimeSeriesQC.IspraRule). The code raises there (TimeSeriesQC.IspraRuleAsWritten, SOURCE/obs_postpro/time_series_post_processing.py:258-264). Only TimeSeriesQC.QualityCheck, which stops with an error before any iteration, models that error, so the two agree on every run that completes.
- TimeSeriesQC.Advance: reads a missing institution as not ISPRA (TimeSeriesQC.IspraRule). The code raises there (TimeSeriesQC.IspraRuleAsWritten, SOURCE/obs_postpro/time_series_post_processing.py:258-264). Only TimeSeriesQC.QualityCheck, which stops with an error before any iteration, models that error, so the two agree on every run that completes.
- TimeSeriesQC.Statistics: reads a missing institution as not ISPRA (TimeSeriesQC.IspraRule). The code raises there (TimeSeriesQC.IspraRuleAsWritten, SOURCE/obs_postpro/time_series_post_processing.py:258-264). Only TimeSeriesQC.QualityCheck, which stops with an error before any iteration, models that error, so the two agree on every run that completes.
- ModelConcatenator.ModelTimes: time units naming neither days nor seconds give an error. The code (SOURCE/model_postpro/model_datasets_concatenator.py:206-215) assigns no new raw times then. It shifts and rounds the previous dataset's final times again and goes on, and on the first dataset it raises NameError. That reuse of the stale axis is not modelled.
- ModelConcatenator.Screen: inherits the ModelConcatenator.ModelTimes error for other time units, where the code instead screens the re-shifted times of the previous dataset.
- PlatformsFinder.Metadata: `unidecode` transliteration of the organisation (SOURCE/obs_postpro/insitu_tac_platforms_finder.py:166) is not modelled. The organisation keeps its characters, with only the commas removed.
- Strings.ParseInt: reads only the ASCII digits 0 to 9. Python's `int()` also reads every other Unicode decimal digit, so `int('٣')` is 3 where the model refuses the text. Surrounding Unicode whitespace, a sign and single `_` separators are modelled as `int()` reads them.
- QualityCheckApplier.ParsePieces: a piece written with non-ASCII decimal digits is refused through Strings.ParseInt, where `int()` at SOURCE/obs_postpro/quality_check_applier.py:53 reads it.
- QualityCheckApplier.ApplyQualityCheck: an accepted-values string with non-ASCII decimal digits is an error through Strings.ParseInt, where the code reads it.
- DataInformation.DataInformation: an accepted-values string with non-ASCII decimal digits is an error through Strings.ParseInt, where `int()` at SOURCE/obs_postpro/data_information_calc.py:73 reads it.
- InsituEvaluation.ToSeconds: a part written with non-ASCII decimal digits fails through Strings.ParseInt, where `int(part)` at SOURCE/insitu_evaluation.py:23 reads it.
- InsituEvaluation.FoldFrom: a part written with non-ASCII decimal digits fails through Strings.ParseInt, where `int(part)` at SOURCE/insitu_evaluation.py:23 reads it.
- AveragerPlan.Field: a field written with non-ASCII decimal digits is refused through Strings.ParseInt, where `int()` at SOURCE/obs_postpro/time_averager.py:181-182 reads it.
- AveragerPlan.ReadAverageStep: a step written with non-ASCII decimal digits is refused through Strings.ParseInt, where the code reads it.
- RejectionStatistics.Numbers: each piece is read with Strings.ParseInt. The script stores the pieces into a float array (SOURCE/obs_postpro/rejection_statistics.py:103-106), and numpy's string-to-float conversion there also accepts decimal fractions and exponents, which the model refuses.
- Strings.Lower: lower-cases ASCII letters only. Python's `str.lower()` at SOURCE/obs_postpro/insitu_tac_platforms_finder.py:240 and 243 also lower-cases other Unicode letters, so platform codes with non-ASCII capitals can compare differently.
- PointwiseConcatenator.SelectFiles: files with equal start times keep their input order, which is a stable sort. `np.argsort`'s default quicksort at SOURCE/pointwise_datasets_concatenator.py:329 promises no order among them, so the model fixes one allowed outcome.

## Findings

| source | as written | input that shows it | evidently intended | confidence | as-written member | corrected member |
|---|---|---|---|---|---|---|
| SOURCE/obs_postpro/insitu_tac_pre_processing.py:1235-1238 | the day count is padded to three digits only below 9 days and to two below 99 | a sampling time of 9 days is written '09 00:00:00', which does not parse back as a three-digit day field | thresholds 10 and 100, so every count below 1000 days is written with three digits | not executed | InsituPreProcessing.SamplingTimeAsWritten, InsituPreProcessing.SamplingTimeNineDays | InsituPreProcessing.SamplingTime, InsituPreProcessing.SamplingTimeRoundTrip |
| SOURCE/obs_postpro/insitu_tac_pre_processing.py:1207-1264 | a field skipped for a short span or a sampling over 999 days keeps the '' it already appended to `sampling_times` | a short-span field followed by a kept field: the kept field's column shows '' as its sampling | each ';'-joined column holds one entry per kept field | not executed | InsituPreProcessing.SamplingColumnAsWritten, InsituPreProcessing.StaleSamplingExample | InsituPreProcessing.SamplingColumn, InsituPreProcessing.ProbeColumnsAligned |
| SOURCE/pointwise_datasets_concatenator.py:358-362 | the copy of the single remaining file is inside `if verbose` | one file left and verbose off: no output file is written | the single file is copied whatever the verbosity | not executed | PointwiseConcatenator.SingleFilePlanAsWritten, PointwiseConcatenator.QuietSingleFileNotCopied | PointwiseConcatenator.SingleFilePlan |
| SOURCE/model_postpro/model_datasets_concatenator.py:383-401 | `high_distance_points_switch` is not reset before a known location is visited | the first dataset's last location is too far away: in the next dataset the records of an accepted location are masked | the switch only concerns the location that set it | not executed | ModelConcatenator.VisitLocationAsWritten, ModelConcatenator.StaleSwitchExample, ModelConcatenator.StaleSwitchMasks | ModelConcatenator.VisitLocation |
| SOURCE/model_postpro/model_datasets_concatenator.py:315-327 | a dataset's times are appended before it is skipped for having no mask | an unmasked dataset keeps its times without any records, so times and records no longer line up | a skipped dataset contributes no times | not executed | ModelConcatenator.DatasetStepAsWritten, ModelConcatenator.UnmaskedTimeKept | ModelConcatenator.DatasetStep |
| SOURCE/obs_postpro/depth_calc.py:128-157 | for a variable with no mask, `np.ma.where` leaves the fill values unmasked, and the in-place masking of consumed samples fails silently | one unmasked record at depths 10, 10.55 and 30: every level passes, and no sample is consumed | fill values count as missing and matched samples are consumed | not executed | DepthCalc.ConsumeAsWritten, DepthCalc.VariableGoodAsWritten, DepthCalc.UnmaskedVariableConsumesNothing | DepthCalc.VariableGood |
| SOURCE/obs_postpro/time_averager.py:161-163 | the zero step is deleted from the distinct steps but not from their counts | steps 0, 60, 60, 120 give 120 instead of 60; steps 0, 10, 10 index past the end | the most frequent non-zero step | not executed | AveragerStep.AveragerModalStep, AveragerStep.AveragerModalStepPicksWrongStep, AveragerStep.AveragerModalStepOutOfRange | Steps.ModalStep, Steps.ModalStepSpec |
| SOURCE/obs_postpro/time_series_post_processing.py:258-264 | `'ISPRA' in institution` with no institution attribute raises TypeError, whatever the variable | any series, of any variable, whose file has no institution and whose data is not all missing | a missing institution is not ISPRA | not executed | TimeSeriesQC.IspraRuleAsWritten, TimeSeriesQC.NoInstitutionFails | TimeSeriesQC.IspraRule |
| SOURCE/model_postpro/vertical_interpolation.py:288-294 | with a single input level and a single output depth, `out_variable_data` is never assigned | one input level onto one output depth: the variable gets the previous variable's values, or the first variable fails | the single level is copied to the output depth | not executed | VerticalInterpolation.OutDataAsWritten, VerticalInterpolation.StaleSingleLevel | VerticalInterpolation.OutData |
