/**
 * The pure pieces of the web handlers: the duplicated `formatDuration`
 * template function, the file-name fallback for unnamed uploads, the
 * per-file bookkeeping of the bulk upload, the in-place reversal of the
 * statistics series, the track statistics of the GPS track page, the
 * field copy of the elevation recalculation, the running totals of the
 * statistics page and the lookup of an activity by its ID.
 *
 * Outcomes of file and storage operations, which the handlers obtain from
 * the multipart request and the storage back end, are inputs here.
 */
module Handlers {
  import opened Models
  import Templates
  import Gpx

  // ---------------------------------------------------------------------
  // formatDuration (the funcMap closure, written three times)

  /** The split the handlers use: `s / 3600`, `(s % 3600) / 60` and `s % 60`
      with Go's truncating operators. */
  function Parts(seconds: int): Templates.Clock {
    Templates.Clock(
      Templates.TruncDiv(seconds, 3600),
      Templates.TruncDiv(Templates.TruncMod(seconds, 3600), 60),
      Templates.TruncMod(seconds, 60))
  }

  /** The handlers' `formatDuration`. */
  function FormatDuration(seconds: int): string {
    Templates.Render(Parts(seconds))
  }

  /** The handlers' split agrees with the template helper's on every count,
      negative ones included, so both print the same text. */
  lemma FormatDurationAgrees(seconds: int)
    ensures Parts(seconds) == Templates.Parts(seconds)
    ensures FormatDuration(seconds) == Templates.FormatDuration(seconds)
  {
    if seconds >= 0 {
      Templates.ClockDigits(seconds);
    } else {
      Templates.ClockDigits(-seconds);
    }
  }

  // ---------------------------------------------------------------------
  // Name fallback

  predicate HasSuffix(s: string, suffix: string) {
    |suffix| <= |s| && s[|s| - |suffix|..] == suffix
  }

  /** `strings.TrimSuffix`: drop one trailing `suffix` if present. Putting
      the dropped suffix back gives the input again. */
  function TrimSuffix(s: string, suffix: string): (r: string)
    ensures HasSuffix(s, suffix) ==> r + suffix == s
    ensures !HasSuffix(s, suffix) ==> r == s
  {
    if HasSuffix(s, suffix) then s[..|s| - |suffix|] else s
  }

  /** `strings.TrimPrefix`: drop one leading `prefix` if present. */
  function TrimPrefix(s: string, prefix: string): (r: string)
    ensures prefix <= s ==> prefix + r == s
    ensures !(prefix <= s) ==> r == s
  {
    if prefix <= s then s[|prefix|..] else s
  }

  /** The activity name stored for an upload: the parsed name, or when that
      is empty the file name with one trailing ".gpx" removed. */
  function NameFallback(name: string, fileName: string): (r: string)
    ensures name != "" ==> r == name
    ensures name == "" && HasSuffix(fileName, ".gpx") ==> r + ".gpx" == fileName
    ensures name == "" && !HasSuffix(fileName, ".gpx") ==> r == fileName
  {
    if name == "" then TrimSuffix(fileName, ".gpx") else name
  }

  /** Only one ".gpx" is removed: a doubled extension keeps one copy. */
  lemma NameFallbackOnce(stem: string)
    ensures NameFallback("", stem + ".gpx.gpx") == stem + ".gpx"
  {
    var f := stem + ".gpx.gpx";
    assert HasSuffix(f, ".gpx") by {
      assert f[|f| - 4..] == ".gpx";
    }
    assert f[..|f| - 4] == stem + ".gpx";
  }

  // ---------------------------------------------------------------------
  // Bulk upload

  /** The outcome of decoding a file's content as GPX. */
  datatype Decode = Decoded(tracks: seq<Gpx.Track>) | Malformed(message: string)

  /** One uploaded file and the outcomes of the operations performed on it:
      opening, reading, saving the raw file, decoding, saving the activity,
      saving the track. */
  datatype Upload = Upload(
    fileName: string,
    openSucceeds: bool,
    readSucceeds: bool,
    fileSaved: bool,
    content: Decode,
    activitySaved: bool,
    trackSaved: bool)

  /** The per-file report of the bulk upload page. */
  datatype BulkUploadResult = BulkUploadResult(
    fileName: string,
    index: int,
    total: int,
    status: string,
    error: string,
    activityName: string,
    distance: real,
    duration: int)

  /** The handler's answer: a rejection when no file was sent, else the
      per-file results with the two counters. */
  datatype BulkResponse =
    | NoFilesSelected
    | Report(results: seq<BulkUploadResult>, successCount: int, errorCount: int)

  /** The two report statuses and the error messages of the upload steps. */
  const Success := "success"
  const Failure := "error"
  const OpenFailed := "Failed to open file"
  const ReadFailed := "Failed to read file content"
  const SaveFileFailed := "Failed to save file"
  const InvalidGpx := "Invalid GPX format: "
  const SaveActivityFailed := "Failed to save activity"
  const SaveTrackFailed := "Failed to save GPS track"

  /** The processing of one file, stopping at the first failing step. */
  function Outcome(u: Upload, i: nat, total: nat, cfg: Config, dist: Gpx.DistanceFn): BulkUploadResult {
    var base := BulkUploadResult(u.fileName, i + 1, total, "", "", "", 0.0, 0);
    if !u.openSucceeds then base.(status := Failure, error := OpenFailed)
    else if !u.readSucceeds then base.(status := Failure, error := ReadFailed)
    else if !u.fileSaved then base.(status := Failure, error := SaveFileFailed)
    else if u.content.Malformed? then base.(status := Failure, error := InvalidGpx + u.content.message)
    else if !u.activitySaved then base.(status := Failure, error := SaveActivityFailed)
    else if !u.trackSaved then base.(status := Failure, error := SaveTrackFailed)
    else
      var activity := Gpx.Analyze(u.content.tracks, cfg, dist).activity;
      base.(status := Success,
            activityName := NameFallback(activity.name, u.fileName),
            distance := activity.distance / 1000.0,
            duration := activity.duration)
  }

  /** Whether step `k` (0 open, 1 read, 2 save file, 3 decode, 4 save
      activity, 5 save track) succeeded. */
  predicate StepOk(u: Upload, k: nat)
    requires k < 6
  {
    [u.openSucceeds, u.readSucceeds, u.fileSaved, u.content.Decoded?, u.activitySaved, u.trackSaved][k]
  }

  /** The first failing step, or 6 when all succeed. */
  function FirstFailure(u: Upload): (k: nat)
    ensures k <= 6
    ensures forall j :: 0 <= j < k ==> StepOk(u, j)
    ensures k < 6 ==> !StepOk(u, k)
  {
    if !u.openSucceeds then 0
    else if !u.readSucceeds then 1
    else if !u.fileSaved then 2
    else if u.content.Malformed? then 3
    else if !u.activitySaved then 4
    else if !u.trackSaved then 5
    else 6
  }

  /** The message recorded for a failure at step `k`. */
  function StepError(u: Upload, k: nat): string
    requires k < 6
  {
    if k == 0 then OpenFailed
    else if k == 1 then ReadFailed
    else if k == 2 then SaveFileFailed
    else if k == 3 then InvalidGpx + (if u.content.Malformed? then u.content.message else "")
    else if k == 4 then SaveActivityFailed
    else SaveTrackFailed
  }

  /** Each file reports its own name, its 1-based position and the batch
      size; it succeeds exactly when every step succeeds, and otherwise
      reports the message of the first failing step and nothing else. */
  lemma OutcomeFacts(u: Upload, i: nat, total: nat, cfg: Config, dist: Gpx.DistanceFn)
    ensures Outcome(u, i, total, cfg, dist).fileName == u.fileName
    ensures Outcome(u, i, total, cfg, dist).index == i + 1
    ensures Outcome(u, i, total, cfg, dist).total == total
    ensures Outcome(u, i, total, cfg, dist).status == Success <==> FirstFailure(u) == 6
    ensures Outcome(u, i, total, cfg, dist).status == Failure <==> FirstFailure(u) < 6
    ensures FirstFailure(u) < 6 ==>
      Outcome(u, i, total, cfg, dist).error == StepError(u, FirstFailure(u)) &&
      Outcome(u, i, total, cfg, dist).activityName == "" &&
      Outcome(u, i, total, cfg, dist).distance == 0.0 &&
      Outcome(u, i, total, cfg, dist).duration == 0
    ensures FirstFailure(u) == 6 ==> Outcome(u, i, total, cfg, dist).error == ""
  {
  }

  /** Steps after the first failure are never looked at: two uploads that
      agree on the name and on every step up to the first failure (and on
      the decode error, when decoding is what failed) get the same report. */
  lemma LaterStepsIgnored(u: Upload, v: Upload, i: nat, total: nat, cfg: Config, dist: Gpx.DistanceFn)
    requires u.fileName == v.fileName
    requires FirstFailure(u) < 6
    requires forall k :: 0 <= k <= FirstFailure(u) ==> StepOk(u, k) == StepOk(v, k)
    requires FirstFailure(u) == 3 ==> u.content == v.content
    ensures Outcome(u, i, total, cfg, dist) == Outcome(v, i, total, cfg, dist)
  {
    var f := FirstFailure(u);
    assert StepOk(u, f) == StepOk(v, f);
    assert forall k :: 0 <= k < f ==> StepOk(v, k);
    assert FirstFailure(v) == f;
  }

  /** The number of successful reports. */
  function CountSuccess(results: seq<BulkUploadResult>): nat {
    if |results| == 0 then 0
    else CountSuccess(results[..|results| - 1]) + (if results[|results| - 1].status == Success then 1 else 0)
  }

  /** The number of uploads all of whose steps succeed. */
  function CountComplete(files: seq<Upload>): (n: nat)
    ensures n <= |files|
  {
    if |files| == 0 then 0
    else CountComplete(files[..|files| - 1]) + (if FirstFailure(files[|files| - 1]) == 6 then 1 else 0)
  }

  /** The report of every file, in order, numbered from 1. */
  function Reports(files: seq<Upload>, cfg: Config, dist: Gpx.DistanceFn): (r: seq<BulkUploadResult>)
    ensures |r| == |files|
  {
    seq(|files|, k requires 0 <= k < |files| => Outcome(files[k], k, |files|, cfg, dist))
  }

  /** One more report raises the success count exactly when it is a success. */
  lemma SuccessStep(results: seq<BulkUploadResult>, result: BulkUploadResult)
    ensures CountSuccess(results + [result]) == CountSuccess(results) + (if result.status == Success then 1 else 0)
  {
    assert (results + [result])[..|results|] == results;
  }

  /** Among the first `n` reports, the successes are exactly the files all of
      whose steps succeed. */
  lemma {:induction false} ReportsCount(files: seq<Upload>, cfg: Config, dist: Gpx.DistanceFn, n: nat)
    requires n <= |files|
    ensures CountSuccess(Reports(files, cfg, dist)[..n]) == CountComplete(files[..n])
  {
    if n > 0 {
      ReportsCount(files, cfg, dist, n - 1);
      var rs := Reports(files, cfg, dist);
      assert rs[..n][..n - 1] == rs[..n - 1];
      assert files[..n][..n - 1] == files[..n - 1];
      OutcomeFacts(files[n - 1], n - 1, |files|, cfg, dist);
    }
  }

  /** The body of the upload loop: the steps in order, each failure
      recording its message and skipping the rest. */
  method ProcessFile(u: Upload, i: nat, total: nat, cfg: Config, dist: Gpx.DistanceFn)
    returns (result: BulkUploadResult)
    ensures result == Outcome(u, i, total, cfg, dist)
    ensures result.status == Success <==> FirstFailure(u) == 6
  {
    OutcomeFacts(u, i, total, cfg, dist);
    result := BulkUploadResult(u.fileName, i + 1, total, "", "", "", 0.0, 0);
    if !u.openSucceeds {
      return result.(status := Failure, error := OpenFailed);
    }
    if !u.readSucceeds {
      return result.(status := Failure, error := ReadFailed);
    }
    if !u.fileSaved {
      return result.(status := Failure, error := SaveFileFailed);
    }
    if u.content.Malformed? {
      return result.(status := Failure, error := InvalidGpx + u.content.message);
    }
    var track, activity := Gpx.ParseGPXWithConfig(u.content.tracks, cfg, dist);
    var name := NameFallback(activity.name, u.fileName);
    if !u.activitySaved {
      return result.(status := Failure, error := SaveActivityFailed);
    }
    if !u.trackSaved {
      return result.(status := Failure, error := SaveTrackFailed);
    }
    return result.(status := Success, activityName := name,
                   distance := activity.distance / 1000.0, duration := activity.duration);
  }

  /** One turn of the upload loop: process file `i`, count it, record its report. */
  method RecordFile(files: seq<Upload>, cfg: Config, dist: Gpx.DistanceFn, i: nat,
                    results: seq<BulkUploadResult>, successCount: int, errorCount: int)
    returns (results': seq<BulkUploadResult>, successCount': int, errorCount': int)
    requires i < |files| && results == Reports(files, cfg, dist)[..i]
    requires successCount == CountSuccess(results)
    ensures results' == Reports(files, cfg, dist)[..i + 1]
    ensures successCount' == CountSuccess(results')
    ensures successCount' + errorCount' == successCount + errorCount + 1
  {
    var result := ProcessFile(files[i], i, |files|, cfg, dist);
    successCount', errorCount' := successCount, errorCount;
    if result.status == Success {
      successCount' := successCount' + 1;
    } else {
      errorCount' := errorCount' + 1;
    }
    SuccessStep(results, result);
    ghost var expected := Reports(files, cfg, dist);
    assert expected[..i + 1] == expected[..i] + [expected[i]];
    results' := results + [result];
  }

  /** `BulkUploadGPX` after the form is parsed: one report per file, in
      order, and the two counters. */
  method BulkUploadGPX(files: seq<Upload>, cfg: Config, dist: Gpx.DistanceFn) returns (response: BulkResponse)
    ensures |files| == 0 <==> response.NoFilesSelected?
    ensures response.Report? ==>
      && |response.results| == |files|
      && response.results == Reports(files, cfg, dist)
      && response.successCount == CountSuccess(response.results) == CountComplete(files)
      && response.successCount + response.errorCount == |files|
  {
    if |files| == 0 {
      return NoFilesSelected;
    }
    var results: seq<BulkUploadResult> := [];
    var successCount := 0;
    var errorCount := 0;
    var i := 0;
    while i < |files|
      invariant 0 <= i <= |files|
      invariant results == Reports(files, cfg, dist)[..i]
      invariant successCount == CountSuccess(results)
      invariant successCount + errorCount == i
    {
      results, successCount, errorCount := RecordFile(files, cfg, dist, i, results, successCount, errorCount);
      i := i + 1;
    }
    ReportsCount(files, cfg, dist, |files|);
    assert Reports(files, cfg, dist)[..i] == Reports(files, cfg, dist);
    assert files[..|files|] == files;
    return Report(results, successCount, errorCount);
  }

  // ---------------------------------------------------------------------
  // Reversal of the statistics series

  /** The reference reversal. */
  function Reversed<T>(a: seq<T>): (r: seq<T>)
    ensures |r| == |a|
  {
    seq(|a|, k requires 0 <= k < |a| => a[|a| - 1 - k])
  }

  /** Reversing twice gives the original back. */
  lemma ReversedTwice<T>(a: seq<T>)
    ensures Reversed(Reversed(a)) == a
  {
  }

  /** The swap loop of the statistics page: exchange positions `i` and
      `n - 1 - i` for every `i < n / 2`. */
  method Reverse<T>(a: seq<T>) returns (r: seq<T>)
    ensures r == Reversed(a)
  {
    r := a;
    var n := |r|;
    var i := 0;
    while i < n / 2
      invariant 0 <= i <= n / 2 && |r| == n
      invariant forall k :: 0 <= k < i ==> r[k] == a[n - 1 - k] && r[n - 1 - k] == a[k]
      invariant forall k :: i <= k < n - i ==> r[k] == a[k]
    {
      var x, y := r[n - 1 - i], r[i];
      r := r[i := x][n - 1 - i := y];
      i := i + 1;
    }
  }

  // ---------------------------------------------------------------------
  // Track statistics of the GPS track page

  /** Start and end coordinates, point count and elevation range of a
      non-empty track; an empty track is returned as it is. */
  method EnhanceTrack(track: GpxTrack) returns (enhanced: GpxTrack)
    ensures |track.points| == 0 ==> enhanced == track
    ensures |track.points| > 0 ==>
      && enhanced.startLat == track.points[0].lat
      && enhanced.startLon == track.points[0].lon
      && enhanced.endLat == track.points[|track.points| - 1].lat
      && enhanced.endLon == track.points[|track.points| - 1].lon
      && enhanced.totalPoints == |track.points|
      && (forall k :: 0 <= k < |track.points| ==>
            enhanced.minElevation <= track.points[k].elevation <= enhanced.maxElevation)
      && (exists k :: 0 <= k < |track.points| && track.points[k].elevation == enhanced.minElevation)
      && (exists k :: 0 <= k < |track.points| && track.points[k].elevation == enhanced.maxElevation)
    ensures enhanced.id == track.id && enhanced.name == track.name
    ensures enhanced.points == track.points && enhanced.createdAt == track.createdAt
  {
    enhanced := track;
    var pts := track.points;
    if |pts| > 0 {
      enhanced := enhanced.(startLat := pts[0].lat, startLon := pts[0].lon,
                            endLat := pts[|pts| - 1].lat, endLon := pts[|pts| - 1].lon,
                            totalPoints := |pts|);
      var minElev, maxElev := pts[0].elevation, pts[0].elevation;
      ghost var lo, hi := 0, 0;
      var k := 0;
      while k < |pts|
        invariant 0 <= k <= |pts|
        invariant 0 <= lo < |pts| && pts[lo].elevation == minElev
        invariant 0 <= hi < |pts| && pts[hi].elevation == maxElev
        invariant forall j :: 0 <= j < k ==> minElev <= pts[j].elevation <= maxElev
        invariant minElev <= pts[0].elevation <= maxElev
      {
        if pts[k].elevation < minElev {
          minElev, lo := pts[k].elevation, k;
        }
        if pts[k].elevation > maxElev {
          maxElev, hi := pts[k].elevation, k;
        }
        k := k + 1;
      }
      enhanced := enhanced.(minElevation := minElev, maxElevation := maxElev);
    }
  }

  // ---------------------------------------------------------------------
  // Elevation recalculation

  /** The stored activity after re-analysis: elevation, distance, duration
      and the two speeds come from the renewed analysis, every other field
      (ID, name, type, times, file, point count, ...) is kept. */
  function Recalculated(stored: Activity, renewed: Activity): (r: Activity)
    ensures r.totalElevation == renewed.totalElevation && r.distance == renewed.distance
    ensures r.duration == renewed.duration && r.avgSpeed == renewed.avgSpeed && r.maxSpeed == renewed.maxSpeed
    ensures r.(totalElevation := stored.totalElevation, distance := stored.distance,
               duration := stored.duration, avgSpeed := stored.avgSpeed, maxSpeed := stored.maxSpeed) == stored
  {
    stored.(totalElevation := renewed.totalElevation, distance := renewed.distance,
            duration := renewed.duration, avgSpeed := renewed.avgSpeed, maxSpeed := renewed.maxSpeed)
  }

  // ---------------------------------------------------------------------
  // Totals of the statistics page

  function TotalDistance(activities: seq<Activity>): real {
    if |activities| == 0 then 0.0
    else TotalDistance(activities[..|activities| - 1]) + activities[|activities| - 1].distance
  }

  function TotalDuration(activities: seq<Activity>): real {
    if |activities| == 0 then 0.0
    else TotalDuration(activities[..|activities| - 1]) + activities[|activities| - 1].duration as real
  }

  /** Totals over a concatenation are the sums of the totals of the parts. */
  lemma {:induction false} TotalsAppend(a: seq<Activity>, b: seq<Activity>)
    ensures TotalDistance(a + b) == TotalDistance(a) + TotalDistance(b)
    ensures TotalDuration(a + b) == TotalDuration(a) + TotalDuration(b)
    decreases |b|
  {
    if |b| == 0 {
      assert a + b == a;
    } else {
      var b' := b[..|b| - 1];
      assert (a + b)[..|a + b| - 1] == a + b';
      TotalsAppend(a, b');
    }
  }

  /** The accumulation loop of the statistics page. */
  method Totals(activities: seq<Activity>) returns (totalDistance: real, totalDuration: real, totalActivities: int)
    ensures totalActivities == |activities|
    ensures totalDistance == TotalDistance(activities)
    ensures totalDuration == TotalDuration(activities)
  {
    totalDistance, totalDuration, totalActivities := 0.0, 0.0, 0;
    var i := 0;
    while i < |activities|
      invariant 0 <= i <= |activities| && totalActivities == i
      invariant totalDistance == TotalDistance(activities[..i])
      invariant totalDuration == TotalDuration(activities[..i])
    {
      assert activities[..i + 1][..i] == activities[..i];
      totalDistance := totalDistance + activities[i].distance;
      totalDuration := totalDuration + activities[i].duration as real;
      totalActivities := totalActivities + 1;
      i := i + 1;
    }
    assert activities[..i] == activities;
  }

  // ---------------------------------------------------------------------
  // Lookup by ID

  /** The outcome of looking up the activity named by a request path. */
  datatype Lookup = IdRequired | NotFound | Found(activity: Activity)

  /** The activity pages: strip the route prefix, reject an empty ID, then
      take the first activity with that ID. */
  method FindActivity(path: string, prefix: string, activities: seq<Activity>) returns (r: Lookup)
    ensures TrimPrefix(path, prefix) == "" <==> r == IdRequired
    ensures r.NotFound? <==>
      TrimPrefix(path, prefix) != "" && forall k :: 0 <= k < |activities| ==> activities[k].id != TrimPrefix(path, prefix)
    ensures r.Found? ==>
      r.activity.id == TrimPrefix(path, prefix) &&
      exists k :: 0 <= k < |activities| && activities[k] == r.activity &&
        forall j :: 0 <= j < k ==> activities[j].id != TrimPrefix(path, prefix)
  {
    var activityId := TrimPrefix(path, prefix);
    if activityId == "" {
      return IdRequired;
    }
    var i := 0;
    while i < |activities|
      invariant 0 <= i <= |activities|
      invariant forall j :: 0 <= j < i ==> activities[j].id != activityId
    {
      if activities[i].id == activityId {
        return Found(activities[i]);
      }
      i := i + 1;
    }
    return NotFound;
  }
}
