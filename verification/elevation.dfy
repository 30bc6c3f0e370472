/**
 * Elevation gain of a track, by the two paths of the analyser:
 *
 *  - the naive gain: the sum of the positive steps between consecutive raw
 *    elevations (`NaiveGain`, computed by `CalculateSimpleElevation`);
 *  - the smoothed gain: every elevation is replaced by the median of a
 *    clamped window around it (`SmoothElevations`, computed by
 *    `RemoveElevationOutliers`), and then every maximal strictly rising run
 *    of the smoothed series is counted whole if its total climb reaches the
 *    minimum gain (`ClimbGain`, computed by
 *    `CalculateThresholdElevationGain`).
 *
 * The reference definitions walk the series from an index `k` onwards, so
 * that a loop which has consumed the steps before `k` keeps the invariant
 * "accumulated so far + what remains from k == the whole".
 */
module ElevationGain {
  import opened Models
  import opened Medians

  // ---------------------------------------------------------------------
  // Naive gain

  /** The climb of one step: its rise when positive, else nothing. */
  function Rise(from: real, to: real): real {
    if to > from then to - from else 0.0
  }

  /** The sum of the positive steps of `e` from index `k` on. */
  function RiseFrom(e: seq<real>, k: nat): real
    decreases |e| - k
  {
    if k + 1 >= |e| then 0.0 else Rise(e[k], e[k + 1]) + RiseFrom(e, k + 1)
  }

  /** The naive elevation gain: the sum of every positive consecutive step. */
  function NaiveGain(e: seq<real>): real {
    RiseFrom(e, 0)
  }

  /** No step contributes a negative amount. */
  lemma {:induction false} RiseFromNonNegative(e: seq<real>, k: nat)
    ensures RiseFrom(e, k) >= 0.0
    decreases |e| - k
  {
    if k + 1 < |e| {
      RiseFromNonNegative(e, k + 1);
    }
  }

  /** A series that never rises has no naive gain. */
  lemma {:induction false} RiseFromNonIncreasing(e: seq<real>, k: nat)
    requires forall m :: 0 <= m < |e| - 1 ==> e[m + 1] <= e[m]
    ensures RiseFrom(e, k) == 0.0
    decreases |e| - k
  {
    if k + 1 < |e| {
      RiseFromNonIncreasing(e, k + 1);
    }
  }

  /** A series that never falls gains exactly its overall rise. */
  lemma {:induction false} RiseFromNonDecreasing(e: seq<real>, k: nat)
    requires k < |e|
    requires forall m :: 0 <= m < |e| - 1 ==> e[m] <= e[m + 1]
    ensures RiseFrom(e, k) == e[|e| - 1] - e[k]
    decreases |e| - k
  {
    if k + 1 < |e| {
      RiseFromNonDecreasing(e, k + 1);
    }
  }

  /** The naive gain is never negative, is 0 for fewer than two points and for
      a series that never rises, and is last minus first for one that never falls. */
  lemma NaiveGainFacts(e: seq<real>)
    ensures NaiveGain(e) >= 0.0
    ensures |e| < 2 ==> NaiveGain(e) == 0.0
    ensures (forall m :: 0 <= m < |e| - 1 ==> e[m + 1] <= e[m]) ==> NaiveGain(e) == 0.0
    ensures |e| > 0 && (forall m :: 0 <= m < |e| - 1 ==> e[m] <= e[m + 1]) ==>
              NaiveGain(e) == e[|e| - 1] - e[0]
  {
    RiseFromNonNegative(e, 0);
    if forall m :: 0 <= m < |e| - 1 ==> e[m + 1] <= e[m] {
      RiseFromNonIncreasing(e, 0);
    }
    if |e| > 0 && forall m :: 0 <= m < |e| - 1 ==> e[m] <= e[m + 1] {
      RiseFromNonDecreasing(e, 0);
    }
  }

  /** The naive-gain samples of the analyser's unit and integration tests. */
  lemma NaiveGainExamples()
    ensures NaiveGain([10.0, 15.0, 20.0]) == 10.0
    ensures NaiveGain([10.0, 15.0, 12.0, 18.0]) == 11.0
    ensures NaiveGain([20.0, 15.0, 10.0]) == 0.0
    ensures NaiveGain([]) == 0.0
    ensures NaiveGain([10.0]) == 0.0
    ensures NaiveGain([10.0, 12.0, 11.5, 14.0, 13.8, 16.0]) == 6.7
  {
  }

  /** `calculateSimpleElevation`: one pass adding every positive step. */
  method CalculateSimpleElevation(pts: seq<Point>) returns (total: real)
    ensures total == NaiveGain(Elevations(pts))
  {
    ghost var e := Elevations(pts);
    total := 0.0;
    var i := 1;
    while i < |pts|
      invariant 1 <= i <= |pts| || (|pts| == 0 && i == 1)
      invariant total + RiseFrom(e, i - 1) == NaiveGain(e)
    {
      if pts[i].elevation > pts[i - 1].elevation {
        total := total + (pts[i].elevation - pts[i - 1].elevation);
      }
      i := i + 1;
    }
  }

  // ---------------------------------------------------------------------
  // Run-length climb accumulation

  /** The step from `m` to `m + 1` rises strictly. */
  predicate StepRises(e: seq<real>, m: int) {
    0 <= m && m + 1 < |e| && e[m] < e[m + 1]
  }

  /** The top of the maximal strictly rising run that starts at `k`. */
  function RunTop(e: seq<real>, k: nat): (top: nat)
    requires k < |e|
    ensures k <= top < |e|
    ensures StepRises(e, k) ==> k < top
    ensures top + 1 == |e| || e[top + 1] <= e[top]
    decreases |e| - k
  {
    if k + 1 < |e| && e[k] < e[k + 1] then RunTop(e, k + 1) else k
  }

  /** Every step from `k` up to the run's top rises. */
  lemma {:induction false} RunTopRises(e: seq<real>, k: nat)
    requires k < |e|
    ensures forall m :: k <= m < RunTop(e, k) ==> StepRises(e, m)
    decreases |e| - k
  {
    if k + 1 < |e| && e[k] < e[k + 1] {
      RunTopRises(e, k + 1);
    }
  }

  /** The counted climbs of `e` from index `k` on: each maximal strictly rising
      run adds its whole rise when that rise reaches `threshold`. */
  function ClimbsFrom(e: seq<real>, k: nat, threshold: real): real
    requires k < |e|
    decreases |e| - k
  {
    if k + 1 == |e| then 0.0
    else if e[k] < e[k + 1] then
      var top := RunTop(e, k);
      var climb := e[top] - e[k];
      (if climb >= threshold then climb else 0.0) + ClimbsFrom(e, top, threshold)
    else ClimbsFrom(e, k + 1, threshold)
  }

  /** The thresholded gain: 0 for fewer than two points. */
  function ClimbGain(e: seq<real>, threshold: real): real {
    if |e| < 2 then 0.0 else ClimbsFrom(e, 0, threshold)
  }

  /** A run rising from `s` through `j` that stops rising at `j` has top `j`. */
  lemma {:induction false} RunTopIs(e: seq<real>, s: nat, j: nat)
    requires s <= j < |e|
    requires forall m :: s <= m < j ==> StepRises(e, m)
    requires j + 1 == |e| || e[j + 1] <= e[j]
    ensures RunTop(e, s) == j
    decreases j - s
  {
    if s < j {
      assert StepRises(e, s);
      RunTopIs(e, s + 1, j);
    }
  }

  /** Over a rising stretch the naive gain telescopes to the stretch's rise. */
  lemma {:induction false} RiseOverRun(e: seq<real>, s: nat, j: nat)
    requires s <= j < |e|
    requires forall m :: s <= m < j ==> StepRises(e, m)
    ensures RiseFrom(e, s) == (e[j] - e[s]) + RiseFrom(e, j)
    ensures s < j ==> e[s] < e[j]
    decreases j - s
  {
    if s < j {
      assert StepRises(e, s);
      RiseOverRun(e, s + 1, j);
    }
  }

  /** Counted climbs are never negative and never exceed the naive gain;
      with a non-positive threshold every run counts and they are equal. */
  lemma {:induction false} ClimbsWithinRise(e: seq<real>, k: nat, threshold: real)
    requires k < |e|
    ensures 0.0 <= ClimbsFrom(e, k, threshold) <= RiseFrom(e, k)
    ensures threshold <= 0.0 ==> ClimbsFrom(e, k, threshold) == RiseFrom(e, k)
    decreases |e| - k
  {
    if k + 1 < |e| {
      if e[k] < e[k + 1] {
        var top := RunTop(e, k);
        RunTopRises(e, k);
        RiseOverRun(e, k, top);
        ClimbsWithinRise(e, top, threshold);
      } else {
        ClimbsWithinRise(e, k + 1, threshold);
      }
    }
  }

  /** The thresholded gain lies between 0 and the naive gain of the same
      series, and equals it when the threshold is not positive. */
  lemma ClimbGainBounds(e: seq<real>, threshold: real)
    ensures 0.0 <= ClimbGain(e, threshold) <= NaiveGain(e)
    ensures threshold <= 0.0 ==> ClimbGain(e, threshold) == NaiveGain(e)
  {
    if |e| >= 2 {
      ClimbsWithinRise(e, 0, threshold);
    }
  }

  /** A step that does not rise starts no run. */
  lemma ClimbsSkipStep(e: seq<real>, k: nat, threshold: real)
    requires k + 1 < |e| && e[k + 1] <= e[k]
    ensures ClimbsFrom(e, k, threshold) == ClimbsFrom(e, k + 1, threshold)
  {
  }

  /** A maximal run from `s` to `j` contributes its rise if that reaches the
      threshold, and counting resumes at `j`. */
  lemma ClimbsOverRun(e: seq<real>, s: nat, j: nat, threshold: real)
    requires s < j < |e|
    requires forall m :: s <= m < j ==> StepRises(e, m)
    requires j + 1 == |e| || e[j + 1] <= e[j]
    ensures ClimbsFrom(e, s, threshold) ==
      (if e[j] - e[s] >= threshold then e[j] - e[s] else 0.0) + ClimbsFrom(e, j, threshold)
  {
    RunTopIs(e, s, j);
  }

  /** `calculateThresholdElevationGain`: the climbing state machine. The ghost
      index `resume` is where the reference count of what is still to come
      starts: the start of the open climb, or the current point. */
  method CalculateThresholdElevationGain(pts: seq<Point>, threshold: real) returns (total: real)
    ensures total == ClimbGain(Elevations(pts), threshold)
  {
    if |pts| < 2 {
      return 0.0;
    }
    var e := Elevations(pts);
    total := 0.0;
    var currentClimb := 0.0;
    var isClimbing := false;
    ghost var resume: nat := 0;
    var i := 1;
    while i < |pts|
      invariant 1 <= i <= |pts|
      invariant resume <= i - 1
      invariant total + ClimbsFrom(e, resume, threshold) == ClimbGain(e, threshold)
      invariant !isClimbing ==> resume == i - 1
      invariant isClimbing ==> resume < i - 1 && currentClimb == e[i - 1] - e[resume]
      invariant isClimbing ==> forall m :: resume <= m < i - 1 ==> StepRises(e, m)
    {
      var elevDiff := e[i] - e[i - 1];
      if elevDiff > 0.0 {
        assert StepRises(e, i - 1);
        if !isClimbing {
          isClimbing := true;
          currentClimb := elevDiff;
        } else {
          currentClimb := currentClimb + elevDiff;
        }
      } else {
        if isClimbing {
          ClimbsOverRun(e, resume, i - 1, threshold);
          if currentClimb >= threshold {
            total := total + currentClimb;
          }
        }
        ClimbsSkipStep(e, i - 1, threshold);
        resume := i;
        isClimbing := false;
        currentClimb := 0.0;
      }
      i := i + 1;
    }
    if isClimbing {
      ClimbsOverRun(e, resume, |pts| - 1, threshold);
      if currentClimb >= threshold {
        total := total + currentClimb;
      }
    }
  }

  // ---------------------------------------------------------------------
  // Median outlier filter

  /** A window size below 1 is replaced by 3. */
  function EffectiveWindow(windowSize: int): int {
    if windowSize < 1 then 3 else windowSize
  }

  /** First index of the window around `i`, clamped at 0. */
  function WindowStart(windowSize: int, i: int): int {
    var start := i - EffectiveWindow(windowSize) / 2;
    if start < 0 then 0 else start
  }

  /** Last index of the window around `i`, clamped at `n - 1`. */
  function WindowEnd(n: int, windowSize: int, i: int): int {
    var end := i + EffectiveWindow(windowSize) / 2;
    if end >= n then n - 1 else end
  }

  /** The raw elevations in the window around index `i`: never empty, and
      always holding the elevation at `i` itself. */
  function Window(e: seq<real>, windowSize: int, i: nat): (win: seq<real>)
    requires i < |e|
    ensures 0 <= WindowStart(windowSize, i) <= i <= WindowEnd(|e|, windowSize, i) < |e|
    ensures |win| == WindowEnd(|e|, windowSize, i) - WindowStart(windowSize, i) + 1 > 0
    ensures win[i - WindowStart(windowSize, i)] == e[i]
  {
    e[WindowStart(windowSize, i)..WindowEnd(|e|, windowSize, i) + 1]
  }

  /** The filtered track: each point keeps its position and time and takes
      the median of its window's raw elevations. */
  function SmoothElevations(pts: seq<Point>, windowSize: int): (r: seq<Point>)
    ensures |r| == |pts|
  {
    seq(|pts|, i requires 0 <= i < |pts| =>
      pts[i].(elevation := MedianOf(Window(Elevations(pts), windowSize, i))))
  }

  /** The filtered point at `i`. */
  lemma SmoothAt(pts: seq<Point>, windowSize: int, i: nat)
    requires i < |pts|
    ensures SmoothElevations(pts, windowSize)[i] ==
      pts[i].(elevation := MedianOf(Window(Elevations(pts), windowSize, i)))
  {
  }

  /** The `k`-th element of the window around `i`. */
  lemma WindowAt(e: seq<real>, windowSize: int, i: nat, k: nat)
    requires i < |e| && k < |Window(e, windowSize, i)|
    ensures WindowStart(windowSize, i) + k < |e|
    ensures Window(e, windowSize, i)[k] == e[WindowStart(windowSize, i) + k]
  {
  }

  /** Each smoothed elevation lies between two raw elevations of its window. */
  lemma SmoothWithinWindow(pts: seq<Point>, windowSize: int, i: nat)
    requires i < |pts|
    ensures exists j :: WindowStart(windowSize, i) <= j <= WindowEnd(|pts|, windowSize, i) &&
              pts[j].elevation <= SmoothElevations(pts, windowSize)[i].elevation
    ensures exists j :: WindowStart(windowSize, i) <= j <= WindowEnd(|pts|, windowSize, i) &&
              SmoothElevations(pts, windowSize)[i].elevation <= pts[j].elevation
  {
    var e := Elevations(pts);
    var win := Window(e, windowSize, i);
    var lo := WindowStart(windowSize, i);
    var med := MedianOf(win);
    SmoothAt(pts, windowSize, i);
    assert SmoothElevations(pts, windowSize)[i].elevation == med;
    var a, b := MedianWitnesses(win);
    WindowAt(e, windowSize, i, a);
    WindowAt(e, windowSize, i, b);
    assert e[lo + a] == pts[lo + a].elevation && e[lo + b] == pts[lo + b].elevation;
  }

  /** A track at constant elevation is left unchanged by the filter. */
  lemma SmoothConstant(pts: seq<Point>, windowSize: int, c: real)
    requires forall k :: 0 <= k < |pts| ==> pts[k].elevation == c
    ensures SmoothElevations(pts, windowSize) == pts
  {
    var e := Elevations(pts);
    var r := SmoothElevations(pts, windowSize);
    forall i | 0 <= i < |pts| ensures r[i] == pts[i] {
      var win := Window(e, windowSize, i);
      forall k | 0 <= k < |win| ensures win[k] == c {
        WindowAt(e, windowSize, i, k);
      }
      MedianOfConstant(win, c);
      SmoothAt(pts, windowSize, i);
    }
  }

  /** A window of one point leaves every elevation as it was. */
  lemma SmoothWindowOne(pts: seq<Point>)
    ensures SmoothElevations(pts, 1) == pts
  {
    var r := SmoothElevations(pts, 1);
    forall i | 0 <= i < |pts| ensures r[i] == pts[i] {
      assert Window(Elevations(pts), 1, i) == [pts[i].elevation];
    }
  }

  /** Any window size below 1 selects the same window as a size of 3. */
  lemma WindowDegenerate(e: seq<real>, windowSize: int, i: nat)
    requires windowSize < 1 && i < |e|
    ensures Window(e, windowSize, i) == Window(e, 3, i)
  {
    assert WindowStart(windowSize, i) == WindowStart(3, i);
    assert WindowEnd(|e|, windowSize, i) == WindowEnd(|e|, 3, i);
  }

  /** Any window size below 1 filters exactly like a window of 3. */
  lemma SmoothDegenerateWindow(pts: seq<Point>, windowSize: int)
    requires windowSize < 1
    ensures SmoothElevations(pts, windowSize) == SmoothElevations(pts, 3)
  {
    var e := Elevations(pts);
    var r, r3 := SmoothElevations(pts, windowSize), SmoothElevations(pts, 3);
    forall i | 0 <= i < |pts| ensures r[i] == r3[i] {
      WindowDegenerate(e, windowSize, i);
    }
  }

  /** The inner loop of `removeElevationOutliers`: the raw elevations of
      `pts[start..end + 1]`, in order. */
  method CollectElevations(pts: seq<Point>, start: nat, end: int) returns (window: seq<real>)
    requires start <= end + 1 <= |pts|
    ensures |window| == end + 1 - start
    ensures forall k :: 0 <= k < |window| ==> window[k] == pts[start + k].elevation
    ensures window == Elevations(pts)[start..end + 1]
  {
    window := [];
    var j := start;
    while j <= end
      invariant start <= j <= end + 1
      invariant |window| == j - start
      invariant forall k :: 0 <= k < |window| ==> window[k] == pts[start + k].elevation
    {
      window := window + [pts[j].elevation];
      j := j + 1;
    }
  }

  /** One step of `removeElevationOutliers`: clamp the window around `i`,
      collect its raw elevations in order and take their median. */
  method WindowMedian(pts: seq<Point>, windowSize: int, i: nat) returns (m: real)
    requires i < |pts|
    ensures m == MedianOf(Window(Elevations(pts), windowSize, i))
  {
    var w := windowSize;
    if w < 1 {
      w := 3;
    }
    var e := Elevations(pts);
    var start := i - w / 2;
    var end := i + w / 2;
    if start < 0 {
      start := 0;
    }
    if end >= |pts| {
      end := |pts| - 1;
    }
    var window := CollectElevations(pts, start, end);
    assert start == WindowStart(windowSize, i) && end == WindowEnd(|e|, windowSize, i);
    assert window == Window(e, windowSize, i);
    m := Median(window);
  }

  /** `removeElevationOutliers`: copy the points, then overwrite each
      elevation with the median of its clamped window of raw elevations. */
  method RemoveElevationOutliers(pts: seq<Point>, windowSize: int) returns (smoothed: seq<Point>)
    ensures smoothed == SmoothElevations(pts, windowSize)
    ensures |smoothed| == |pts|
    ensures forall i :: 0 <= i < |pts| ==>
      smoothed[i].lat == pts[i].lat && smoothed[i].lon == pts[i].lon && smoothed[i].time == pts[i].time
  {
    ghost var target := SmoothElevations(pts, windowSize);
    smoothed := pts;
    var i := 0;
    while i < |pts|
      invariant 0 <= i <= |pts| == |smoothed|
      invariant forall k :: 0 <= k < i ==> smoothed[k] == target[k]
      invariant forall k :: i <= k < |pts| ==> smoothed[k] == pts[k]
    {
      var m := WindowMedian(pts, windowSize, i);
      SmoothAt(pts, windowSize, i);
      smoothed := smoothed[i := smoothed[i].(elevation := m)];
      i := i + 1;
    }
  }

  // ---------------------------------------------------------------------
  // Choice between the two paths

  /** The elevation gain the analyser reports. */
  function SmoothedGain(pts: seq<Point>, cfg: Config): real {
    if !cfg.smoothingEnabled || |pts| < 3 then NaiveGain(Elevations(pts))
    else ClimbGain(Elevations(SmoothElevations(pts, cfg.window)), cfg.minGain)
  }

  /** The reported gain is never negative; it is the naive gain when smoothing
      is off or there are fewer than 3 points (so 0 below 2 points); otherwise
      it never exceeds the naive gain of the filtered series. */
  lemma SmoothedGainFacts(pts: seq<Point>, cfg: Config)
    ensures SmoothedGain(pts, cfg) >= 0.0
    ensures !cfg.smoothingEnabled || |pts| < 3 ==> SmoothedGain(pts, cfg) == NaiveGain(Elevations(pts))
    ensures |pts| < 2 ==> SmoothedGain(pts, cfg) == 0.0
    ensures cfg.smoothingEnabled && |pts| >= 3 ==>
      SmoothedGain(pts, cfg) <= NaiveGain(Elevations(SmoothElevations(pts, cfg.window)))
  {
    NaiveGainFacts(Elevations(pts));
    ClimbGainBounds(Elevations(SmoothElevations(pts, cfg.window)), cfg.minGain);
  }

  /** `calculateSmoothedElevation`: the naive sum when smoothing is off or the
      track is too short, else the median filter followed by the climb count. */
  method CalculateSmoothedElevation(pts: seq<Point>, cfg: Config) returns (gain: real)
    ensures gain == SmoothedGain(pts, cfg)
  {
    if !cfg.smoothingEnabled || |pts| < 3 {
      gain := CalculateSimpleElevation(pts);
      return;
    }
    var smoothed := RemoveElevationOutliers(pts, cfg.window);
    gain := CalculateThresholdElevationGain(smoothed, cfg.minGain);
  }

  // ---------------------------------------------------------------------
  // The smoothed path on the integration-test sample

  /** An inner width-3 window holds the three raw elevations around `i`. When
      the left neighbour lies between the other two (`j == 0`) it is the
      median; when the right neighbour does (`j == 1`), that one is. */
  lemma InnerWindowMedian(e: seq<real>, i: nat, j: nat)
    requires 0 < i && i + 1 < |e| && j < 2
    requires j == 0 ==> e[i] <= e[i - 1] <= e[i + 1]
    requires j == 1 ==> e[i - 1] <= e[i + 1] <= e[i]
    ensures j == 0 ==> MedianOf(Window(e, 3, i)) == e[i - 1]
    ensures j == 1 ==> MedianOf(Window(e, 3, i)) == e[i + 1]
  {
    var w := e[i - 1..i + 2];
    assert Window(e, 3, i) == w;
    assert w[0] == e[i - 1] && w[1] == e[i] && w[2] == e[i + 1];
    MedianOfTriple(w, j);
  }

  /** A width-3 window at either end holds two raw elevations; when they are
      in order its median is their mean. */
  lemma EdgeWindowMedian(e: seq<real>, i: nat)
    requires |e| >= 2 && (i == 0 || i + 1 == |e|)
    requires i == 0 ==> e[0] <= e[1]
    requires i > 0 ==> e[i - 1] <= e[i]
    ensures i == 0 ==> MedianOf(Window(e, 3, i)) == (e[0] + e[1]) / 2.0
    ensures i > 0 ==> MedianOf(Window(e, 3, i)) == (e[i - 1] + e[i]) / 2.0
  {
    if i == 0 {
      assert Window(e, 3, i) == e[0..2];
    } else {
      assert Window(e, 3, i) == e[i - 1..i + 1];
    }
    MedianOfOrderedPair(Window(e, 3, i));
  }

  /** The window-3 medians of the elevations 10, 12, 11.5, 14, 13.8, 16. */
  lemma SampleMedians(e: seq<real>)
    requires |e| == 6
    requires e[0] == 10.0 && e[1] == 12.0 && e[2] == 11.5 && e[3] == 14.0 && e[4] == 13.8 && e[5] == 16.0
    ensures MedianOf(Window(e, 3, 0)) == 11.0
    ensures MedianOf(Window(e, 3, 1)) == 11.5
    ensures MedianOf(Window(e, 3, 2)) == 12.0
    ensures MedianOf(Window(e, 3, 3)) == 13.8
    ensures MedianOf(Window(e, 3, 4)) == 14.0
    ensures MedianOf(Window(e, 3, 5)) == 14.9
  {
    EdgeWindowMedian(e, 0);
    EdgeWindowMedian(e, 5);
    InnerWindowMedian(e, 1, 1);
    InnerWindowMedian(e, 2, 0);
    InnerWindowMedian(e, 3, 1);
    InnerWindowMedian(e, 4, 0);
  }

  /** The series 11, 11.5, 12, 13.8, 14, 14.9 rises at every step, so it is
      one climb of 3.9, which clears a threshold of 1. */
  lemma SampleClimb(es: seq<real>)
    requires |es| == 6
    requires es[0] == 11.0 && es[1] == 11.5 && es[2] == 12.0 && es[3] == 13.8 && es[4] == 14.0 && es[5] == 14.9
    ensures ClimbGain(es, 1.0) == 3.9
  {
    forall m | 0 <= m < 5 ensures StepRises(es, m) {
      assert es[m] < es[m + 1];
    }
    RunTopIs(es, 0, 5);
    assert ClimbsFrom(es, 0, 1.0) == 3.9 + ClimbsFrom(es, 5, 1.0);
  }

  /** With window 3 and minimum gain 1, the test track's smoothed elevations
      11, 11.5, 12, 13.8, 14, 14.9 rise throughout, so the whole climb of 3.9
      is counted: the positive gain the custom-smoothing test expects. */
  lemma SmoothedGainExample(pts: seq<Point>)
    requires |pts| == 6
    requires pts[0].elevation == 10.0 && pts[1].elevation == 12.0 && pts[2].elevation == 11.5
    requires pts[3].elevation == 14.0 && pts[4].elevation == 13.8 && pts[5].elevation == 16.0
    ensures SmoothedGain(pts, Config(true, 3, 1.0)) == 3.9
  {
    var e := Elevations(pts);
    SampleMedians(e);
    var sm := SmoothElevations(pts, 3);
    var es := Elevations(sm);
    forall i | 0 <= i < 6 ensures es[i] == MedianOf(Window(e, 3, i)) {
      SmoothAt(pts, 3, i);
    }
    SampleClimb(es);
  }
}
