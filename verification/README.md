# GPX activity analysis — a Dafny model

This project models the computational core of a small Go web application
that imports GPS tracks (GPX files) and shows activity statistics. It covers:

- **The GPX analyser** (`internal/gpx/parser.go`). It walks the decoded
  tracks, segments and points. It collects the points. It widens the
  earliest/latest timestamp window. It sums the leg distances. It records a
  km/h speed for every timed pair with a positive time difference and keeps
  the maximum. Finally it derives the average speed, the duration, the point
  count and the elevation gain.
- **The elevation gain** (`parser.go`). When smoothing is on and there are
  at least three points, each elevation is replaced by the median of a
  window centred on it. The smoothed series is then scanned for maximal runs
  of strictly rising steps, and a run counts only when its total climb
  reaches the minimum gain. Otherwise the gain is the sum of all rises.
- **The median** used by that filter (`median` and `calculateMedian`: a
  bubble sort, then the middle element or the mean of the two middle ones).
- **The template helpers** `formatDuration` and `divf`
  (`internal/templates/templates.go`).
- **Pure fragments of the HTTP handlers** (`internal/handlers/handlers.go`):
  - the handlers' own copy of `formatDuration`;
  - the activity-name fallback to the file name without `.gpx`;
  - the per-file steps and counters of the bulk upload;
  - the in-place reversal of the statistics series;
  - the track statistics of the GPS track page;
  - the field copy of the elevation recalculation;
  - the running totals of the statistics page;
  - the lookup of an activity by the ID in the request path.

Every Go loop is a Dafny `method`, either proved equal to a reference
definition or specified by its properties (the bubble sort by
sortedness and permutation, the track enhancement and the activity lookup by
what their results contain). Lemmas then state what those definitions promise: bounds,
round-trips, membership, invariance under permutation, and agreement between
duplicated code.

Modules (one per file): `Models` (records), `Medians`, `ElevationGain`,
`Gpx` (the analyser), `Templates`, `Handlers`.

Modelling choices:

- **Timestamps** are whole seconds, `Option<int>`. `None` stands for Go's
  zero `time.Time`, which the code tests with `IsZero`. Reals stand in for
  `float64`.
- **Decoded input.** The analyser receives decoded tracks. The great-circle
  distance is a function parameter `dist`. The configuration `config.Load()`
  would supply is a parameter, so every setting is covered, including the
  defaults (smoothing on, window 5, minimum gain 1.0;
  `internal/config/config.go:32-34`).
- **Go's integer operators.** Go's `/` and `%` truncate toward zero, so
  `formatDuration` is modelled with explicit truncating division (`TruncDiv`,
  `TruncMod`). This covers negative durations too, which print as, e.g.,
  `-1:-5`.
- **Bulk-upload I/O.** Each uploaded file is an `Upload` record holding the
  outcome of each I/O step: open, read, save file, decode, save activity,
  save track.

Where the documentation and the code disagree, the model follows the code:

- The test comments speak of a moving-average smoother. The code uses a
  median filter followed by the run-length climb threshold, and that is what
  is modelled. Three expectations in `parser_test.go` (0.0, 9.17 and 3.0, at
  lines 31-45, 47-62 and 86-100) were written for the moving average. They
  are not stated as lemmas.
- A test comment (`parser_test.go:268`) speaks of a default minimum gain of
  3.0. The configuration default is 1.0.
- The parser never sets `GPXTrack.TotalPoints`: it stays 0 until the track
  page fills it in (`EnhanceTrack`).
- `removeElevationOutliers` replaces a window size below 1 by 3. Smoothing
  is skipped entirely for fewer than three points.

## Model

| member | source | states |
|---|---|---|
| Models.Elevations | internal/gpx/parser.go:196-198 | the elevation projection has one entry per point, each that point's elevation |
| Medians.Insert | internal/gpx/parser.go:264-270 | inserting into a sorted sequence keeps it sorted and adds exactly one occurrence of the new value |
| Medians.Sort | internal/gpx/parser.go:264-270 | the reference sort returns a sorted permutation of its input |
| Medians.SortedByNeighbours | internal/gpx/parser.go:264-270 | a sequence whose neighbours are in order is sorted, which is the condition bubble sort establishes |
| Medians.SortedHeadLeast | internal/gpx/parser.go:272-276 | the first element of a sorted sequence is its least element |
| Medians.SortedSameHead | internal/gpx/parser.go:272-276 | two sorted permutations of one multiset start with the same value |
| Medians.SortedTail | internal/gpx/parser.go:272-276 | the tail of a sorted sequence is sorted and holds the rest of the multiset |
| Medians.SortedUnique | internal/gpx/parser.go:264-276 | sorting is unique: two sorted permutations of the same values are equal, so the middle picked after sorting does not depend on the sort |
| Medians.MedianOfPermutation | internal/gpx/parser.go:251-277 | the median depends only on the multiset of values, not on their order |
| Medians.MedianBounds | internal/gpx/parser.go:251-277 | a non-empty sample's median lies between some sample value below it and some sample value above it |
| Medians.MedianWitnesses | internal/gpx/parser.go:251-277 | returns the indices of a sample value at most the median and one at least the median |
| Medians.MedianOfConstant | internal/gpx/parser.go:251-277 | the median of a constant non-empty sample is that constant |
| Medians.Swap | internal/gpx/parser.go:266-268 | exchanging two neighbours keeps the length and the multiset of values |
| Medians.BubbleSort | internal/gpx/parser.go:260-270 | the bubble-sort passes return a sorted permutation of the input |
| Medians.Median | internal/gpx/parser.go:251-277 | `median` returns 0 for no values, the value for one, otherwise the middle (or mean of the two middle) values of the sorted copy |
| Medians.CalculateMedian | internal/gpx/parser.go:291-315 | `calculateMedian` computes the same median as `median` |
| Medians.MedianOfSorted | internal/gpx/parser.go:272-276 | for two or more values the median is the middle of any sorted permutation |
| Medians.OddSampleSorted | internal/gpx/parser_test.go:179-181 | two neighbour swaps sort the odd test sample, with 3.0 in the middle |
| Medians.MedianOddExample | internal/gpx/parser_test.go:179-181 | the median of 1, 3, 2, 5, 4 is 3 |
| Medians.MedianEvenExamples | internal/gpx/parser_test.go:183-202 | the medians of 1, 2, 3, 4 and of 2, 8 are 2.5 and 5 |
| Medians.MedianOfOrderedPair | internal/gpx/parser.go:271-274 | the median of two ordered values is their mean |
| Medians.MedianOfTriple | internal/gpx/parser.go:259-276 | the median of three values is the middle of their sorted order |
| Medians.MedianSmallExamples | internal/gpx/parser_test.go:188-207 | the median of one value is that value, of none is 0, of three equal values is that value |
| ElevationGain.RiseFromNonNegative | internal/gpx/parser.go:280-289 | the summed rises are never negative |
| ElevationGain.RiseFromNonIncreasing | internal/gpx/parser.go:280-289 | a series that never rises has no gain |
| ElevationGain.RiseFromNonDecreasing | internal/gpx/parser.go:280-289 | a series that never falls gains exactly last minus first |
| ElevationGain.NaiveGainFacts | internal/gpx/parser.go:280-289 | the simple gain is non-negative, 0 below two points or without rises, and last minus first for a series that never falls |
| ElevationGain.NaiveGainExamples | internal/gpx/parser_test.go:120-158 | the simple-gain test samples give 10, 11, 0, 0 and 0, and the integration sample gives 6.7 (parser_test.go:275-296) |
| ElevationGain.CalculateSimpleElevation | internal/gpx/parser.go:280-289 | the loop adds exactly the positive steps of the elevation series |
| ElevationGain.RunTop | internal/gpx/parser.go:218-240 | a rising run starting at a point ends where the next step no longer rises, and moves past its start when the first step rises |
| ElevationGain.RunTopRises | internal/gpx/parser.go:218-231 | every step inside a run rises |
| ElevationGain.RunTopIs | internal/gpx/parser.go:218-240 | a run is determined by its rising steps and the first non-rising step after them |
| ElevationGain.RiseOverRun | internal/gpx/parser.go:221-230 | across a rising run the summed rises equal the run's net climb, which is positive when the run is non-empty |
| ElevationGain.ClimbsWithinRise | internal/gpx/parser.go:209-248 | the threshold gain lies between 0 and the simple gain from any point, and equals it for a threshold at most 0 |
| ElevationGain.ClimbGainBounds | internal/gpx/parser.go:209-248 | the threshold gain of a series is between 0 and its simple gain, and equal to it when the threshold is at most 0 |
| ElevationGain.ClimbsSkipStep | internal/gpx/parser.go:232-239 | a non-rising step contributes nothing to the threshold gain |
| ElevationGain.ClimbsOverRun | internal/gpx/parser.go:221-245 | a maximal rising run contributes its net climb exactly when that climb reaches the threshold |
| ElevationGain.CalculateThresholdElevationGain | internal/gpx/parser.go:209-248 | the climbing state machine, including the final open climb, computes the reference threshold gain |
| ElevationGain.Window | internal/gpx/parser.go:182-198 | the clamped window around point i lies inside the series, contains i, and holds i's own elevation at i's offset |
| ElevationGain.SmoothElevations | internal/gpx/parser.go:174-205 | the median filter keeps the number of points |
| ElevationGain.SmoothAt | internal/gpx/parser.go:179-202 | the filter changes only the elevation of each point, setting it to the median of that point's window |
| ElevationGain.WindowAt | internal/gpx/parser.go:195-198 | the window's entries are the elevations from the clamped start onwards |
| ElevationGain.SmoothWithinWindow | internal/gpx/parser.go:174-205 | every smoothed elevation lies between the least and the greatest elevation of its window |
| ElevationGain.SmoothConstant | internal/gpx/parser.go:174-205 | a flat track is left unchanged by the filter |
| ElevationGain.SmoothWindowOne | internal/gpx/parser.go:174-205 | a window of width 1 leaves every point unchanged |
| ElevationGain.WindowDegenerate | internal/gpx/parser.go:175-177 | a window size below 1 selects the same window as size 3 |
| ElevationGain.SmoothDegenerateWindow | internal/gpx/parser.go:175-177 | a window size below 1 smooths exactly as window size 3 |
| ElevationGain.CollectElevations | internal/gpx/parser.go:194-198 | the inner loop gathers exactly the elevations from start to end inclusive |
| ElevationGain.WindowMedian | internal/gpx/parser.go:184-201 | the clamped bounds and median produce the median of point i's window |
| ElevationGain.RemoveElevationOutliers | internal/gpx/parser.go:174-205 | the filter returns the points with each elevation replaced by its window median, all else unchanged |
| ElevationGain.SmoothedGainFacts | internal/gpx/parser.go:161-171 | the gain is non-negative; with smoothing off or fewer than 3 points it is the simple gain; otherwise it is the threshold gain of the filtered points and never exceeds their simple gain |
| ElevationGain.InnerWindowMedian | internal/gpx/parser.go:184-201 | the median of an inner width-3 window is whichever raw elevation lies between the other two |
| ElevationGain.EdgeWindowMedian | internal/gpx/parser.go:184-201 | a width-3 window at either end holds two elevations, and its median is their mean |
| ElevationGain.SampleMedians | internal/gpx/parser_test.go:297-318 | the width-3 medians of the elevations 10, 12, 11.5, 14, 13.8, 16 are 11, 11.5, 12, 13.8, 14, 14.9 |
| ElevationGain.SampleClimb | internal/gpx/parser_test.go:297-318 | the smoothed series of that sample rises at every step, one climb of 3.9, clearing the threshold 1 |
| ElevationGain.SmoothedGainExample | internal/gpx/parser_test.go:297-318 | with window 3 and minimum gain 1 the sample's gain is 3.9, so positive as the test expects |
| ElevationGain.CalculateSmoothedElevation | internal/gpx/parser.go:161-171 | the dispatcher computes the reference smoothed gain |
| Gpx.SegmentPointsStep | internal/gpx/parser.go:67-111 | walking one more segment appends exactly its points |
| Gpx.FlattenStep | internal/gpx/parser.go:61-113 | walking one more track appends exactly its segments' points |
| Gpx.SegmentPointsAppend | internal/gpx/parser.go:67-111 | the points of concatenated segment lists are the concatenation of their points |
| Gpx.FlattenAppend | internal/gpx/parser.go:61-113 | the points of concatenated track lists are the concatenation of their points |
| Gpx.SegmentPointsMembers | internal/gpx/parser.go:67-111 | a point is collected exactly when some segment holds it |
| Gpx.FlattenMembers | internal/gpx/parser.go:61-113 | a point is collected exactly when some segment of some track holds it |
| Gpx.FirstNameFacts | internal/gpx/parser.go:61-66 | the name is empty exactly when every track's name is empty, and otherwise is the name of the first track with a non-empty name |
| Gpx.PathDistanceAppend | internal/gpx/parser.go:89-92 | the distance of joined point lists is the sum of both plus the leg across the join |
| Gpx.PathDistanceMonotone | internal/gpx/parser.go:89-92 | with non-negative legs, every prefix's distance is between 0 and the total distance |
| Gpx.SpeedsMembers | internal/gpx/parser.go:95-104 | a speed is recorded exactly when some consecutive pair of timed points with a positive time difference yields it |
| Gpx.SpeedsNonNegative | internal/gpx/parser.go:96-100 | with non-negative legs every recorded speed is non-negative |
| Gpx.SpeedsUntimed | internal/gpx/parser.go:96-98 | points without timestamps record no speeds |
| Gpx.MaxOrZeroFacts | internal/gpx/parser.go:101-103 | the running maximum starts at 0, bounds every speed, and is either 0 or one of the speeds |
| Gpx.SumAtMostMax | internal/gpx/parser.go:118-125 | the sum of the speeds is at most their count times their maximum |
| Gpx.SumNonNegative | internal/gpx/parser.go:118-125 | a sum of non-negative speeds is non-negative |
| Gpx.MeanFacts | internal/gpx/parser.go:118-125 | the average speed is 0 without speeds, never exceeds the maximum speed, and is non-negative for non-negative speeds |
| Gpx.EarliestTimeFacts | internal/gpx/parser.go:76-81 | the start time exists exactly when some point is timed, is some point's time and is no later than any point's time |
| Gpx.LatestTimeFacts | internal/gpx/parser.go:76-84 | the end time exists exactly when some point is timed, is some point's time and is no earlier than any point's time |
| Gpx.DurationFacts | internal/gpx/parser.go:128-131 | the duration is never negative, is 0 without timestamps, and start and end times are set together |
| Gpx.AnalysisFacts | internal/gpx/parser.go:39-140 | the activity counts the collected points, shares the track's name, and has non-negative duration, gain and maximum speed; average speed at most the maximum; no duration or speed without timestamps |
| Gpx.AppendPoint | internal/gpx/parser.go:68-110 | one more point adds its leg, its pair speed, and widens the time window by its time |
| Gpx.MinTimeIsEarlier | internal/gpx/parser.go:79-81 | the start-time update is exactly the earlier of the old start and the new time: set when either is, no later than either, and one of them |
| Gpx.MaxTimeIsLater | internal/gpx/parser.go:82-84 | the end-time update is exactly the later of the old end and the new time: set when either is, no earlier than either, and one of them |
| Gpx.MaxOrZeroIsRunningMax | internal/gpx/parser.go:101-103 | the maximum speed is exactly the value that is non-negative, bounds every speed, and is 0 or one of the speeds |
| Gpx.WidenSpan | internal/gpx/parser.go:76-86 | the new start is the earlier and the new end the later of the old bound and the point's time, each set exactly when the old bound or the time is |
| Gpx.Advance | internal/gpx/parser.go:88-106 | the first point adds nothing; afterwards the leg is added to the distance, a speed of leg over interval times 3.6 is appended exactly when both points are timed and the interval is positive, and the maximum stays a running maximum of the speeds |
| Gpx.AdvancedSpeeds | internal/gpx/parser.go:95-104 | the speeds after a point are the earlier speeds followed by the pair speed of the point and its predecessor |
| Gpx.SpanStep | internal/gpx/parser.go:76-86 | widening the time window by a point gives the earliest and latest times of the point list extended by that point |
| Gpx.MotionStep | internal/gpx/parser.go:88-106 | advancing by a point gives the distance, speeds and maximum speed of the point list extended by that point |
| Gpx.AddPoint | internal/gpx/parser.go:68-110 | processing a point appends it and keeps every running total equal to its reference definition |
| Gpx.AddSegment | internal/gpx/parser.go:67-111 | processing a segment appends its points and keeps the running totals exact |
| Gpx.AddTrack | internal/gpx/parser.go:61-113 | processing a track appends its segments' points and keeps the running totals exact |
| Gpx.AverageSpeed | internal/gpx/parser.go:117-125 | the average is the mean of the recorded speeds, 0 when there are none |
| Gpx.ParseGPXWithConfig | internal/gpx/parser.go:39-140 | the parser returns exactly the reference analysis of the decoded tracks |
| Templates.TruncDivMod | internal/templates/templates.go:56-60 | Go's truncating quotient and remainder recompose the dividend, agree with Euclidean division for non-negative dividends, and mirror it for negative ones |
| Templates.ClockDigits | internal/handlers/handlers.go:430-436 | for a non-negative count, minutes of the whole minutes equal minutes within the hour, and hours, minutes and seconds recompose the count |
| Templates.NatString | internal/templates/templates.go:63-65 | `%d` of a non-negative number is a non-empty digit string, one digit exactly below 10 and two below 100 |
| Templates.ParseNatString | internal/templates/templates.go:63-65 | reading back a printed non-negative number gives the number |
| Templates.Pad2Facts | internal/templates/templates.go:63-65 | `%02d` of a number below 100 is two digits that read back as the number |
| Templates.IntString | internal/templates/templates.go:63-65 | `%d`: never empty, starts with a minus sign exactly for a negative number, and is all digits otherwise |
| Templates.Pad2 | internal/templates/templates.go:63-65 | `%02d`: at least two characters, and exactly two digits for a number from 0 to 99 |
| Templates.Parts | internal/templates/templates.go:56-60 | non-negative seconds split into hours, minutes below 60 and seconds below 60 that recompose the count; negative counts give non-positive parts |
| Templates.Divf | internal/templates/templates.go:68-73 | division that returns 0 for a zero divisor and otherwise a quotient that times the divisor gives the dividend |
| Templates.Render | internal/templates/templates.go:62-65 | the two `Sprintf` forms: `%d:%02d:%02d` of hours, minutes and seconds when the hours are positive, else `%d:%02d` of minutes and seconds; its shape is stated by FormatShape |
| Templates.FormatDuration | internal/templates/templates.go:56-66 | `formatDuration` renders the truncating split of the count; its meaning is stated by FormatRoundTrip, FormatInjective and the examples |
| Templates.FieldsPrefix | internal/templates/templates.go:62-65 | digits before the text join the first colon-separated field |
| Templates.FieldsColon | internal/templates/templates.go:62-65 | digits followed by a colon form a field of their own |
| Templates.FieldsDigits | internal/templates/templates.go:62-65 | a digit string is a single field |
| Templates.HourFields | internal/templates/templates.go:62-63 | the hour form splits into the hours, the two-digit minutes and the two-digit seconds |
| Templates.MinuteFields | internal/templates/templates.go:65 | the minute form splits into the minutes and the two-digit seconds |
| Templates.FormatShape | internal/templates/templates.go:56-66 | the text has three numeric fields from one hour on and two below, with two-digit seconds and, in the hour form, two-digit minutes |
| Templates.ParseHourForm | internal/templates/templates.go:62-63 | the hour form reads back as hours·3600 + minutes·60 + seconds |
| Templates.ParseMinuteForm | internal/templates/templates.go:65 | the minute form reads back as minutes·60 + seconds |
| Templates.FormatRoundTrip | internal/templates/templates.go:56-66 | reading back the formatted text of any non-negative count gives the count |
| Templates.FormatInjective | internal/templates/templates.go:56-66 | distinct non-negative counts format to distinct texts |
| Templates.FormatHourExample | internal/templates/templates.go:62-63 | 3725 seconds format as 1:02:05 |
| Templates.FormatMinuteExample | internal/templates/templates.go:65 | 65 seconds format as 1:05 |
| Templates.FormatNegativeExample | internal/templates/templates.go:56-66 | -65 seconds format as -1:-5, because Go's remainders keep the sign |
| Handlers.Parts | internal/handlers/handlers.go:431-432 | the closure's split: hours = seconds / 3600, minutes = (seconds % 3600) / 60, seconds % 60, with Go's truncating operators; FormatDurationAgrees proves it equals the template helper's split |
| Handlers.FormatDuration | internal/handlers/handlers.go:430-437 | the handlers' `formatDuration` closure renders that split with the same two `Sprintf` forms |
| Handlers.FormatDurationAgrees | internal/handlers/handlers.go:430-437 | the handlers' `formatDuration` prints exactly what the template helper prints, for every count, negative ones included; the same closure is repeated at handlers.go:1512-1519 and 1958-1965 |
| Handlers.TrimSuffix | internal/handlers/handlers.go:134-136 | dropping the suffix and putting it back gives the input; without the suffix the input is unchanged |
| Handlers.TrimPrefix | internal/handlers/handlers.go:1277 | dropping the path prefix and putting it back gives the path; without the prefix the path is unchanged |
| Handlers.NameFallback | internal/handlers/handlers.go:1173-1175 | a non-empty activity name is kept; an empty one becomes the file name without one trailing `.gpx` |
| Handlers.NameFallbackOnce | internal/handlers/handlers.go:134-136 | only one `.gpx` is removed from a doubled extension |
| Handlers.Outcome | internal/handlers/handlers.go:1124-1202 | the report for one file: the checks run in order (open, read, save file, parse, save activity, save track), the first failure sets status "error" and its message, and otherwise the status is "success" with the activity name (falling back to the file name), the distance in kilometres and the duration; its properties are stated by OutcomeFacts, FirstFailure and LaterStepsIgnored |
| Handlers.FirstFailure | internal/handlers/handlers.go:1131-1195 | the processing stops at the first failing step; every earlier step succeeded |
| Handlers.OutcomeFacts | internal/handlers/handlers.go:1124-1202 | each report carries the file name, 1-based index and batch size; it is a success exactly when every step succeeds, and otherwise carries the first failing step's message |
| Handlers.LaterStepsIgnored | internal/handlers/handlers.go:1131-1195 | once a step fails, the outcomes of later steps do not change the report |
| Handlers.SuccessStep | internal/handlers/handlers.go:1196-1201 | one more report raises the success count by one exactly when it is a success |
| Handlers.ReportsCount | internal/handlers/handlers.go:1124-1202 | the successes among the first n reports are the first n files whose every step succeeds |
| Handlers.RecordFile | internal/handlers/handlers.go:1124-1202 | one turn of the upload loop appends the file's report, keeps the success count equal to the successes so far, and adds one to successes plus errors |
| Handlers.ProcessFile | internal/handlers/handlers.go:1124-1202 | processing a file yields its reference report, a success exactly when every step succeeds |
| Handlers.BulkUploadGPX | internal/handlers/handlers.go:1114-1203 | no files is rejected; otherwise there is one report per file in order, the success count is the number of fully successful files, and successes plus errors is the number of files |
| Handlers.ReversedTwice | internal/handlers/handlers.go:639-648 | reversing twice restores the series |
| Handlers.Reverse | internal/handlers/handlers.go:639-641 | the swap loop over the first half reverses the series |
| Handlers.EnhanceTrack | internal/handlers/handlers.go:1920-1943 | an empty track is unchanged; otherwise start and end are the first and last points, the count is the number of points, and min and max elevation bound every point and are attained |
| Handlers.Recalculated | internal/handlers/handlers.go:2037-2042 | the five recomputed fields are taken from the new analysis and every other field is the stored one |
| Handlers.TotalsAppend | internal/handlers/handlers.go:599-602 | totals over two lists of activities add up |
| Handlers.Totals | internal/handlers/handlers.go:599-602 | the loop sums distances and durations and counts the activities |
| Handlers.FindActivity | internal/handlers/handlers.go:1277-1302 | an empty ID is rejected, an absent ID is reported not found, and otherwise the first activity with that ID is returned; the GPS track page repeats this lookup with its own prefix at handlers.go:1597-1615 |

## Left out

- XML decoding of the GPX document, and RFC 3339 timestamp parsing. The
  model starts from decoded tracks and whole-second `Option<int>` times. An
  unparsable time is `None`, as the code ignores it.
- Sub-second time differences. Points that are less than one second apart
  but have different timestamps do get a speed in the Go code; the model's
  whole seconds cannot express them.
- `haversineDistance` and its trigonometry. It is the parameter `dist`, and
  only the lemmas that need non-negative legs assume them.
- Floating-point rounding. All arithmetic is on reals, so the parser test
  tolerances, and the `float64` to `int` truncation of `Duration` for
  fractional seconds, are not modelled.
- Gpx.Duration / Gpx.PairSpeed: Go's `Time.Sub` saturates at about ±292
  years (±2^63 ns). The model uses the exact difference of the whole-second
  timestamps, so it departs from Go only for timestamps more than 292 years
  apart.
- Gpx.EarliestTime: a parsed timestamp equal to Go's zero time
  (`0001-01-01T00:00:00Z`) is treated as absent. In Go, such a point after a
  timed point passes `t.Before(startTime)` and resets the running start time
  to zero (`internal/gpx/parser.go:79-81`). The start then stays zero, giving
  duration 0, or restarts at a later point's time. The model cannot express
  this reset; it takes the earliest of the other times.
- Templates.Parts: does not model the `time.Duration` nanosecond overflow
  for counts beyond about 292 years. For such counts the Go helper and the
  handlers' copy differ.
- `config.Load` and its environment variables. The configuration is a
  parameter of every member that uses it, so the defaults of
  `internal/config/config.go:32-34` need no constant of their own.
- Storage, S3, `main`, the HTTP routing and request parsing, multipart
  handling, HTML templates and cookies. They are I/O; their outcomes enter
  the bulk-upload model as the booleans of `Upload`.
- The `gpx_<UnixNano>_<name>` file name and the contents of the saved
  activity and track records in the bulk upload. They need the clock and the
  storage layer.
- The single-file upload beyond its name fallback (handlers.go:134-136).
  Its remaining steps are the same I/O as in the bulk upload.
- The statistics page beyond its totals and reversals: bucketing by
  `time.Now`, `isSameDay`, the weekly and daily series, unit conversions and
  pace. They depend on the clock and on floating-point display formatting.
- The elevation-recalculation handler beyond its field copy: listing,
  reading and saving files is storage I/O.
- `internal/models/health.go` and the health handlers. They are outside
  this model.
- A moving-average smoother. The test comments mention one, but the code
  does not implement it.
