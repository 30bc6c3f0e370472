/**
 * The aggregation pass of `ParseGPXWithConfig` over already-decoded GPX
 * tracks: one flattened point list in document order, the activity name,
 * the time span, the accumulated distance, the pairwise speeds with their
 * maximum and mean, and the elevation gain.
 *
 * The great-circle distance is a parameter `dist(lat1, lon1, lat2, lon2)`;
 * lemmas that need it to be non-negative say so with `NonNegative(dist)`.
 * The reference definitions below recurse on the last element, in the
 * order the Go loop visits the points.
 */
module Gpx {
  import opened Models
  import opened ElevationGain

  /** A decoded `trkseg`: its `trkpt`s, timestamps already parsed (or `None`). */
  datatype Segment = Segment(points: seq<Point>)

  /** A decoded `trk`: its name and segments. */
  datatype Track = Track(name: string, segments: seq<Segment>)

  /** Distance in metres between two coordinates (Haversine in the source). */
  type DistanceFn = (real, real, real, real) -> real

  ghost predicate NonNegative(dist: DistanceFn) {
    forall lat1, lon1, lat2, lon2 :: dist(lat1, lon1, lat2, lon2) >= 0.0
  }

  // ---------------------------------------------------------------------
  // Points in document order

  /** The points of a list of segments, segment after segment. */
  function SegmentPoints(segs: seq<Segment>): seq<Point> {
    if |segs| == 0 then [] else SegmentPoints(segs[..|segs| - 1]) + segs[|segs| - 1].points
  }

  /** Every `trkpt` of every `trkseg` of every `trk`, in document order. */
  function Flatten(tracks: seq<Track>): seq<Point> {
    if |tracks| == 0 then [] else Flatten(tracks[..|tracks| - 1]) + SegmentPoints(tracks[|tracks| - 1].segments)
  }

  /** One more segment adds its points at the end. */
  lemma SegmentPointsStep(segs: seq<Segment>, s: nat)
    requires s < |segs|
    ensures SegmentPoints(segs[..s + 1]) == SegmentPoints(segs[..s]) + segs[s].points
  {
    assert segs[..s + 1][..s] == segs[..s];
  }

  /** One more track adds its points at the end. */
  lemma FlattenStep(tracks: seq<Track>, t: nat)
    requires t < |tracks|
    ensures Flatten(tracks[..t + 1]) == Flatten(tracks[..t]) + SegmentPoints(tracks[t].segments)
  {
    assert tracks[..t + 1][..t] == tracks[..t];
  }

  /** Segment lists concatenate to the concatenation of their points. */
  lemma {:induction false} SegmentPointsAppend(a: seq<Segment>, b: seq<Segment>)
    ensures SegmentPoints(a + b) == SegmentPoints(a) + SegmentPoints(b)
    decreases |b|
  {
    if |b| == 0 {
      assert a + b == a;
    } else {
      var b' := b[..|b| - 1];
      assert (a + b)[..|a + b| - 1] == a + b';
      SegmentPointsAppend(a, b');
    }
  }

  /** Track lists concatenate to the concatenation of their points: the
      points of a later track always come after those of an earlier one. */
  lemma {:induction false} FlattenAppend(a: seq<Track>, b: seq<Track>)
    ensures Flatten(a + b) == Flatten(a) + Flatten(b)
    decreases |b|
  {
    if |b| == 0 {
      assert a + b == a;
    } else {
      var b' := b[..|b| - 1];
      assert (a + b)[..|a + b| - 1] == a + b';
      FlattenAppend(a, b');
    }
  }

  /** A point is in the segment list's points iff it is in one of its segments. */
  lemma {:induction false} SegmentPointsMembers(segs: seq<Segment>, p: Point)
    ensures p in SegmentPoints(segs) <==> exists s :: 0 <= s < |segs| && p in segs[s].points
    decreases |segs|
  {
    if |segs| > 0 {
      var init := segs[..|segs| - 1];
      SegmentPointsMembers(init, p);
      if p in SegmentPoints(init) {
        var s :| 0 <= s < |init| && p in init[s].points;
        assert p in segs[s].points;
      }
      if exists s :: 0 <= s < |segs| && p in segs[s].points {
        var s :| 0 <= s < |segs| && p in segs[s].points;
        if s < |segs| - 1 {
          assert p in init[s].points;
        }
      }
    }
  }

  /** A point is in the flattened list iff some segment of some track holds it. */
  lemma {:induction false} FlattenMembers(tracks: seq<Track>, p: Point)
    ensures p in Flatten(tracks) <==>
      exists t, s :: 0 <= t < |tracks| && 0 <= s < |tracks[t].segments| && p in tracks[t].segments[s].points
    decreases |tracks|
  {
    if |tracks| > 0 {
      var init := tracks[..|tracks| - 1];
      var last := tracks[|tracks| - 1];
      FlattenMembers(init, p);
      SegmentPointsMembers(last.segments, p);
      if p in Flatten(init) {
        var t, s :| 0 <= t < |init| && 0 <= s < |init[t].segments| && p in init[t].segments[s].points;
        assert tracks[t] == init[t];
      }
      if p in SegmentPoints(last.segments) {
        var s :| 0 <= s < |last.segments| && p in last.segments[s].points;
        assert tracks[|tracks| - 1] == last;
      }
      if exists t, s :: 0 <= t < |tracks| && 0 <= s < |tracks[t].segments| && p in tracks[t].segments[s].points {
        var t, s :| 0 <= t < |tracks| && 0 <= s < |tracks[t].segments| && p in tracks[t].segments[s].points;
        if t < |tracks| - 1 {
          assert init[t] == tracks[t];
        }
      }
    }
  }

  // ---------------------------------------------------------------------
  // Name

  /** The name kept by the parser: the first non-empty track name, else "". */
  function FirstName(tracks: seq<Track>): string {
    if |tracks| == 0 then ""
    else
      var name := FirstName(tracks[..|tracks| - 1]);
      if name == "" then tracks[|tracks| - 1].name else name
  }

  /** The kept name is empty iff every track name is empty; otherwise it is
      the name of a track all of whose predecessors are unnamed. */
  lemma {:induction false} FirstNameFacts(tracks: seq<Track>)
    ensures FirstName(tracks) == "" <==> forall k :: 0 <= k < |tracks| ==> tracks[k].name == ""
    ensures FirstName(tracks) != "" ==>
      exists k :: 0 <= k < |tracks| && tracks[k].name == FirstName(tracks) &&
        forall j :: 0 <= j < k ==> tracks[j].name == ""
    decreases |tracks|
  {
    if |tracks| > 0 {
      var init := tracks[..|tracks| - 1];
      FirstNameFacts(init);
      if FirstName(init) != "" {
        var k :| 0 <= k < |init| && init[k].name == FirstName(init) &&
          forall j :: 0 <= j < k ==> init[j].name == "";
        assert tracks[k].name == FirstName(tracks);
        assert forall j :: 0 <= j < k ==> tracks[j].name == "" by {
          forall j | 0 <= j < k ensures tracks[j].name == "" {
            assert tracks[j] == init[j];
          }
        }
      } else {
        assert forall j :: 0 <= j < |tracks| - 1 ==> tracks[j].name == "" by {
          forall j | 0 <= j < |tracks| - 1 ensures tracks[j].name == "" {
            assert tracks[j] == init[j];
          }
        }
      }
    }
  }

  // ---------------------------------------------------------------------
  // Distance and speeds

  /** The distance between two consecutive points. */
  function Leg(p: Point, q: Point, dist: DistanceFn): real {
    dist(p.lat, p.lon, q.lat, q.lon)
  }

  /** The sum of the legs between consecutive points. */
  function PathDistance(pts: seq<Point>, dist: DistanceFn): real {
    if |pts| < 2 then 0.0
    else PathDistance(pts[..|pts| - 1], dist) + Leg(pts[|pts| - 2], pts[|pts| - 1], dist)
  }

  /** The speed in km/h of the pair (p, q): one value when both points are
      timed and q is strictly later, none otherwise. */
  function PairSpeed(p: Point, q: Point, dist: DistanceFn): seq<real> {
    if p.time.Some? && q.time.Some? && q.time.value - p.time.value > 0 then
      [(Leg(p, q, dist) / (q.time.value - p.time.value) as real) * 3.6]
    else []
  }

  /** The recorded speeds, one per qualifying consecutive pair, in order. */
  function Speeds(pts: seq<Point>, dist: DistanceFn): seq<real> {
    if |pts| < 2 then []
    else Speeds(pts[..|pts| - 1], dist) + PairSpeed(pts[|pts| - 2], pts[|pts| - 1], dist)
  }

  /** The distance of a concatenation: both parts plus the leg joining them.
      The parser never forgets the previous point, so segment and track
      boundaries contribute a leg like any other pair. */
  lemma {:induction false} PathDistanceAppend(a: seq<Point>, b: seq<Point>, dist: DistanceFn)
    ensures PathDistance(a + b, dist) ==
      PathDistance(a, dist) + PathDistance(b, dist) +
      (if |a| > 0 && |b| > 0 then Leg(a[|a| - 1], b[0], dist) else 0.0)
    decreases |b|
  {
    if |b| == 0 {
      assert a + b == a;
    } else if |b| == 1 {
      if |a| > 0 {
        assert (a + b)[..|a + b| - 1] == a;
      }
    } else {
      var b' := b[..|b| - 1];
      assert (a + b)[..|a + b| - 1] == a + b';
      PathDistanceAppend(a, b', dist);
      assert b'[..|b'|] == b';
    }
  }

  /** With a non-negative distance, the path distance is non-negative and
      never decreases as points are appended. */
  lemma {:induction false} PathDistanceMonotone(pts: seq<Point>, k: nat, dist: DistanceFn)
    requires NonNegative(dist)
    requires k <= |pts|
    ensures 0.0 <= PathDistance(pts[..k], dist) <= PathDistance(pts, dist)
    decreases |pts|
  {
    if k < |pts| {
      var init := pts[..|pts| - 1];
      assert pts[..k] == init[..k];
      PathDistanceMonotone(init, k, dist);
      if |pts| >= 2 {
        assert Leg(pts[|pts| - 2], pts[|pts| - 1], dist) >= 0.0;
      }
    } else {
      assert pts[..k] == pts;
      if |pts| >= 2 {
        PathDistanceMonotone(pts[..|pts| - 1], 0, dist);
        assert Leg(pts[|pts| - 2], pts[|pts| - 1], dist) >= 0.0;
      }
    }
  }

  /** A value is a recorded speed iff some consecutive pair produces it. */
  lemma {:induction false} SpeedsMembers(pts: seq<Point>, dist: DistanceFn, x: real)
    ensures x in Speeds(pts, dist) <==> exists i :: 1 <= i < |pts| && PairSpeed(pts[i - 1], pts[i], dist) == [x]
    decreases |pts|
  {
    if |pts| >= 2 {
      var init := pts[..|pts| - 1];
      SpeedsMembers(init, dist, x);
      if x in Speeds(init, dist) {
        var i :| 1 <= i < |init| && PairSpeed(init[i - 1], init[i], dist) == [x];
        assert pts[i - 1] == init[i - 1] && pts[i] == init[i];
      }
      var n := |pts| - 1;
      if x in PairSpeed(pts[n - 1], pts[n], dist) {
        assert PairSpeed(pts[n - 1], pts[n], dist) == [x];
      }
      if exists i :: 1 <= i < |pts| && PairSpeed(pts[i - 1], pts[i], dist) == [x] {
        var i :| 1 <= i < |pts| && PairSpeed(pts[i - 1], pts[i], dist) == [x];
        if i < n {
          assert init[i - 1] == pts[i - 1] && init[i] == pts[i];
        } else {
          assert x in PairSpeed(pts[n - 1], pts[n], dist);
        }
      }
    } else {
      assert Speeds(pts, dist) == [];
    }
  }

  /** With a non-negative distance every recorded speed is non-negative. */
  lemma {:induction false} SpeedsNonNegative(pts: seq<Point>, dist: DistanceFn)
    requires NonNegative(dist)
    ensures forall k :: 0 <= k < |Speeds(pts, dist)| ==> Speeds(pts, dist)[k] >= 0.0
    decreases |pts|
  {
    if |pts| >= 2 {
      var p, q := pts[|pts| - 2], pts[|pts| - 1];
      SpeedsNonNegative(pts[..|pts| - 1], dist);
      if p.time.Some? && q.time.Some? && q.time.value - p.time.value > 0 {
        var dt := (q.time.value - p.time.value) as real;
        assert Leg(p, q, dist) >= 0.0;
        assert Leg(p, q, dist) / dt >= 0.0;
      }
    }
  }

  /** Without any timestamps no speed is recorded. */
  lemma {:induction false} SpeedsUntimed(pts: seq<Point>, dist: DistanceFn)
    requires forall k :: 0 <= k < |pts| ==> pts[k].time.None?
    ensures Speeds(pts, dist) == []
    decreases |pts|
  {
    if |pts| >= 2 {
      SpeedsUntimed(pts[..|pts| - 1], dist);
    }
  }

  // ---------------------------------------------------------------------
  // Sum, mean and maximum

  function Sum(xs: seq<real>): real {
    if |xs| == 0 then 0.0 else Sum(xs[..|xs| - 1]) + xs[|xs| - 1]
  }

  /** The arithmetic mean, 0 for no values. */
  function Mean(xs: seq<real>): real {
    if |xs| == 0 then 0.0 else Sum(xs) / |xs| as real
  }

  /** The running maximum as the parser keeps it: starts at 0 and is replaced
      by any strictly larger value. */
  function MaxOrZero(xs: seq<real>): real {
    if |xs| == 0 then 0.0
    else
      var m := MaxOrZero(xs[..|xs| - 1]);
      if xs[|xs| - 1] > m then xs[|xs| - 1] else m
  }

  /** The maximum is at least 0 and at least every value; it is 0 or one of the values. */
  lemma {:induction false} MaxOrZeroFacts(xs: seq<real>)
    ensures MaxOrZero(xs) >= 0.0
    ensures forall k :: 0 <= k < |xs| ==> xs[k] <= MaxOrZero(xs)
    ensures MaxOrZero(xs) == 0.0 || exists k :: 0 <= k < |xs| && xs[k] == MaxOrZero(xs)
    decreases |xs|
  {
    if |xs| > 0 {
      var init := xs[..|xs| - 1];
      MaxOrZeroFacts(init);
      assert forall k :: 0 <= k < |init| ==> xs[k] == init[k];
      if MaxOrZero(xs) != 0.0 && MaxOrZero(xs) != xs[|xs| - 1] {
        var k :| 0 <= k < |init| && init[k] == MaxOrZero(init);
        assert xs[k] == MaxOrZero(xs);
      }
    }
  }

  /** The sum never exceeds the count times the maximum. */
  lemma {:induction false} SumAtMostMax(xs: seq<real>)
    ensures Sum(xs) <= |xs| as real * MaxOrZero(xs)
    decreases |xs|
  {
    if |xs| > 0 {
      var init := xs[..|xs| - 1];
      SumAtMostMax(init);
      MaxOrZeroFacts(init);
      MaxOrZeroFacts(xs);
      assert MaxOrZero(init) <= MaxOrZero(xs);
      assert |init| as real * MaxOrZero(init) <= |init| as real * MaxOrZero(xs);
    }
  }

  /** Non-negative values have a non-negative sum. */
  lemma {:induction false} SumNonNegative(xs: seq<real>)
    requires forall k :: 0 <= k < |xs| ==> xs[k] >= 0.0
    ensures Sum(xs) >= 0.0
    decreases |xs|
  {
    if |xs| > 0 {
      SumNonNegative(xs[..|xs| - 1]);
    }
  }

  lemma DivideAtMost(a: real, n: real, m: real)
    requires n > 0.0 && a <= n * m
    ensures a / n <= m
  {
    assert a / n <= (n * m) / n;
  }

  /** The mean is 0 for no values and never exceeds the maximum; it is
      non-negative when the values are. */
  lemma MeanFacts(xs: seq<real>)
    ensures |xs| == 0 ==> Mean(xs) == 0.0 && MaxOrZero(xs) == 0.0
    ensures Mean(xs) <= MaxOrZero(xs)
    ensures (forall k :: 0 <= k < |xs| ==> xs[k] >= 0.0) ==> Mean(xs) >= 0.0
  {
    SumAtMostMax(xs);
    MaxOrZeroFacts(xs);
    if |xs| > 0 {
      DivideAtMost(Sum(xs), |xs| as real, MaxOrZero(xs));
    }
    if forall k :: 0 <= k < |xs| ==> xs[k] >= 0.0 {
      SumNonNegative(xs);
    }
  }

  // ---------------------------------------------------------------------
  // Time span

  /** The earlier of a running minimum and a further optional timestamp. */
  function MinTime(acc: Option<int>, t: Option<int>): Option<int> {
    if t.None? then acc
    else if acc.None? || t.value < acc.value then t
    else acc
  }

  /** The later of a running maximum and a further optional timestamp. */
  function MaxTime(acc: Option<int>, t: Option<int>): Option<int> {
    if t.None? then acc
    else if acc.None? || t.value > acc.value then t
    else acc
  }

  /** The earliest parsed timestamp, if any. */
  function EarliestTime(pts: seq<Point>): Option<int> {
    if |pts| == 0 then None else MinTime(EarliestTime(pts[..|pts| - 1]), pts[|pts| - 1].time)
  }

  /** The latest parsed timestamp, if any. */
  function LatestTime(pts: seq<Point>): Option<int> {
    if |pts| == 0 then None else MaxTime(LatestTime(pts[..|pts| - 1]), pts[|pts| - 1].time)
  }

  /** The start time exists iff some point is timed; it is then the time of
      such a point and no later than any other point's time. */
  lemma {:induction false} EarliestTimeFacts(pts: seq<Point>)
    ensures EarliestTime(pts).Some? <==> exists k :: 0 <= k < |pts| && pts[k].time.Some?
    ensures EarliestTime(pts).Some? ==>
      (exists k :: 0 <= k < |pts| && pts[k].time == EarliestTime(pts)) &&
      forall k :: 0 <= k < |pts| && pts[k].time.Some? ==> EarliestTime(pts).value <= pts[k].time.value
    decreases |pts|
  {
    if |pts| > 0 {
      var init := pts[..|pts| - 1];
      EarliestTimeFacts(init);
      assert forall k :: 0 <= k < |init| ==> pts[k] == init[k];
      if EarliestTime(pts).Some? && EarliestTime(pts) != pts[|pts| - 1].time {
        var k :| 0 <= k < |init| && init[k].time == EarliestTime(init);
        assert pts[k].time == EarliestTime(pts);
      }
    }
  }

  /** The end time exists iff some point is timed; it is then the time of
      such a point and no earlier than any other point's time. */
  lemma {:induction false} LatestTimeFacts(pts: seq<Point>)
    ensures LatestTime(pts).Some? <==> exists k :: 0 <= k < |pts| && pts[k].time.Some?
    ensures LatestTime(pts).Some? ==>
      (exists k :: 0 <= k < |pts| && pts[k].time == LatestTime(pts)) &&
      forall k :: 0 <= k < |pts| && pts[k].time.Some? ==> pts[k].time.value <= LatestTime(pts).value
    decreases |pts|
  {
    if |pts| > 0 {
      var init := pts[..|pts| - 1];
      LatestTimeFacts(init);
      assert forall k :: 0 <= k < |init| ==> pts[k] == init[k];
      if LatestTime(pts).Some? && LatestTime(pts) != pts[|pts| - 1].time {
        var k :| 0 <= k < |init| && init[k].time == LatestTime(init);
        assert pts[k].time == LatestTime(pts);
      }
    }
  }

  /** Whole seconds from start to end; 0 unless both are known. */
  function Duration(start: Option<int>, end: Option<int>): int {
    if start.Some? && end.Some? then end.value - start.value else 0
  }

  /** The activity duration is never negative, is 0 for an untimed track, and
      otherwise spans from the earliest to the latest timestamp. */
  lemma DurationFacts(pts: seq<Point>)
    ensures Duration(EarliestTime(pts), LatestTime(pts)) >= 0
    ensures (forall k :: 0 <= k < |pts| ==> pts[k].time.None?) ==>
      Duration(EarliestTime(pts), LatestTime(pts)) == 0
    ensures EarliestTime(pts).Some? <==> LatestTime(pts).Some?
  {
    EarliestTimeFacts(pts);
    LatestTimeFacts(pts);
    if EarliestTime(pts).Some? {
      var k :| 0 <= k < |pts| && pts[k].time == EarliestTime(pts);
      assert EarliestTime(pts).value <= LatestTime(pts).value;
    }
  }

  // ---------------------------------------------------------------------
  // The whole analysis

  /** The parser's two results. */
  datatype Analysis = Analysis(track: GpxTrack, activity: Activity)

  /** The reference analysis of decoded tracks. Fields the parser does not
      set keep their zero values (empty strings, no time, 0). */
  function Analyze(tracks: seq<Track>, cfg: Config, dist: DistanceFn): Analysis {
    var pts := Flatten(tracks);
    var name := FirstName(tracks);
    var start, end := EarliestTime(pts), LatestTime(pts);
    var speeds := Speeds(pts, dist);
    Analysis(
      GpxTrack("", name, pts, None, 0.0, 0.0, 0.0, 0.0, 0, 0.0, 0.0),
      Activity("", name, "activity", start, end, Duration(start, end), PathDistance(pts, dist), 0, "",
               SmoothedGain(pts, cfg), MaxOrZero(speeds), Mean(speeds), |pts|, None))
  }

  /** What the analysis promises: the activity counts the flattened points
      and shares the track's name; duration, gain and speeds are never
      negative (speeds and distance given a non-negative distance), the mean
      speed never exceeds the maximum, and without timestamps there is no
      duration and no speed. */
  lemma AnalysisFacts(tracks: seq<Track>, cfg: Config, dist: DistanceFn)
    ensures Analyze(tracks, cfg, dist).track.points == Flatten(tracks)
    ensures Analyze(tracks, cfg, dist).activity.totalPoints == |Flatten(tracks)|
    ensures Analyze(tracks, cfg, dist).activity.name == Analyze(tracks, cfg, dist).track.name
    ensures Analyze(tracks, cfg, dist).activity.duration >= 0
    ensures Analyze(tracks, cfg, dist).activity.totalElevation >= 0.0
    ensures Analyze(tracks, cfg, dist).activity.avgSpeed <= Analyze(tracks, cfg, dist).activity.maxSpeed
    ensures Analyze(tracks, cfg, dist).activity.maxSpeed >= 0.0
    ensures NonNegative(dist) ==>
      Analyze(tracks, cfg, dist).activity.avgSpeed >= 0.0 && Analyze(tracks, cfg, dist).activity.distance >= 0.0
    ensures (forall k :: 0 <= k < |Flatten(tracks)| ==> Flatten(tracks)[k].time.None?) ==>
      Analyze(tracks, cfg, dist).activity.duration == 0 &&
      Analyze(tracks, cfg, dist).activity.maxSpeed == 0.0 &&
      Analyze(tracks, cfg, dist).activity.avgSpeed == 0.0
  {
    var pts := Flatten(tracks);
    var speeds := Speeds(pts, dist);
    DurationFacts(pts);
    SmoothedGainFacts(pts, cfg);
    MeanFacts(speeds);
    MaxOrZeroFacts(speeds);
    if NonNegative(dist) {
      SpeedsNonNegative(pts, dist);
      PathDistanceMonotone(pts, 0, dist);
    }
    if forall k :: 0 <= k < |pts| ==> pts[k].time.None? {
      SpeedsUntimed(pts, dist);
    }
  }

  // ---------------------------------------------------------------------
  // The parser's loop

  /** The parser's running totals over the points seen so far. */
  datatype Running = Running(
    points: seq<Point>,
    prev: Option<Point>,
    distance: real,
    speeds: seq<real>,
    maxSpeed: real,
    start: Option<int>,
    end: Option<int>)

  /** The running totals agree with the reference definitions over `points`. */
  ghost predicate Agrees(r: Running, dist: DistanceFn) {
    && r.prev == (if |r.points| == 0 then None else Some(r.points[|r.points| - 1]))
    && r.distance == PathDistance(r.points, dist)
    && r.speeds == Speeds(r.points, dist)
    && r.maxSpeed == MaxOrZero(r.speeds)
    && r.start == EarliestTime(r.points)
    && r.end == LatestTime(r.points)
  }

  lemma ConcatAssoc<T>(a: seq<T>, b: seq<T>, c: seq<T>)
    ensures (a + b) + c == a + (b + c)
  {
  }

  /** Appending one point extends every reference definition by one step. */
  lemma AppendPoint(pts: seq<Point>, p: Point, dist: DistanceFn)
    ensures PathDistance(pts + [p], dist) ==
      PathDistance(pts, dist) + (if |pts| > 0 then Leg(pts[|pts| - 1], p, dist) else 0.0)
    ensures Speeds(pts + [p], dist) ==
      Speeds(pts, dist) + (if |pts| > 0 then PairSpeed(pts[|pts| - 1], p, dist) else [])
    ensures EarliestTime(pts + [p]) == MinTime(EarliestTime(pts), p.time)
    ensures LatestTime(pts + [p]) == MaxTime(LatestTime(pts), p.time)
  {
    assert (pts + [p])[..|pts|] == pts;
  }

  /** `m` is the earlier of the optional times `a` and `t`: it is one of them,
      present when either is, and no later than either. */
  predicate EarlierOf(m: Option<int>, a: Option<int>, t: Option<int>) {
    && (m == a || m == t)
    && (m.Some? <==> a.Some? || t.Some?)
    && (a.Some? ==> m.Some? && m.value <= a.value)
    && (t.Some? ==> m.Some? && m.value <= t.value)
  }

  /** `m` is the later of the optional times `a` and `t`. */
  predicate LaterOf(m: Option<int>, a: Option<int>, t: Option<int>) {
    && (m == a || m == t)
    && (m.Some? <==> a.Some? || t.Some?)
    && (a.Some? ==> m.Some? && m.value >= a.value)
    && (t.Some? ==> m.Some? && m.value >= t.value)
  }

  /** The running minimum is exactly the earlier of its two arguments. */
  lemma MinTimeIsEarlier(a: Option<int>, t: Option<int>, m: Option<int>)
    ensures EarlierOf(m, a, t) <==> m == MinTime(a, t)
  {
    if EarlierOf(m, a, t) && a.Some? && t.Some? {
      assert m.value <= a.value && m.value <= t.value;
    }
  }

  /** The running maximum is exactly the later of its two arguments. */
  lemma MaxTimeIsLater(a: Option<int>, t: Option<int>, m: Option<int>)
    ensures LaterOf(m, a, t) <==> m == MaxTime(a, t)
  {
    if LaterOf(m, a, t) && a.Some? && t.Some? {
      assert m.value >= a.value && m.value >= t.value;
    }
  }

  /** `m` is a running maximum of `xs` as the parser keeps it: never negative,
      at least every value, and either 0 or one of the values. */
  ghost predicate RunningMax(m: real, xs: seq<real>) {
    && m >= 0.0
    && (forall k :: 0 <= k < |xs| ==> xs[k] <= m)
    && (m == 0.0 || exists k :: 0 <= k < |xs| && xs[k] == m)
  }

  /** Those three properties determine the running maximum. */
  lemma MaxOrZeroIsRunningMax(xs: seq<real>, m: real)
    ensures RunningMax(m, xs) <==> m == MaxOrZero(xs)
  {
    MaxOrZeroFacts(xs);
    var top := MaxOrZero(xs);
    if RunningMax(m, xs) {
      if m != 0.0 {
        var k :| 0 <= k < |xs| && xs[k] == m;
        assert m <= top;
      }
      if top != 0.0 {
        var k :| 0 <= k < |xs| && xs[k] == top;
        assert top <= m;
      }
    }
  }

  /** Widen the time span by a point's parsed timestamp, if it has one. */
  method WidenSpan(start: Option<int>, end: Option<int>, time: Option<int>)
    returns (start': Option<int>, end': Option<int>)
    ensures EarlierOf(start', start, time)
    ensures LaterOf(end', end, time)
  {
    start', end' := start, end;
    if time.Some? {
      var t := time.value;
      if start'.None? || t < start'.value {
        start' := Some(t);
      }
      if end'.None? || t > end'.value {
        end' := Some(t);
      }
    }
  }

  /** The leg from the previous point and, when both are timed and time
      advanced, the speed over it in km/h, folded into the running maximum. */
  method Advance(prev: Option<Point>, point: Point, distance: real, speeds: seq<real>, maxSpeed: real,
                 dist: DistanceFn)
    returns (distance': real, speeds': seq<real>, maxSpeed': real)
    requires RunningMax(maxSpeed, speeds)
    ensures prev.None? ==> distance' == distance && speeds' == speeds
    ensures prev.Some? ==> distance' == distance + dist(prev.value.lat, prev.value.lon, point.lat, point.lon)
    ensures |speeds| <= |speeds'| <= |speeds| + 1 && speeds'[..|speeds|] == speeds
    ensures |speeds'| > |speeds| <==>
      prev.Some? && prev.value.time.Some? && point.time.Some? && point.time.value > prev.value.time.value
    ensures prev.Some? && prev.value.time.Some? && point.time.Some? && |speeds'| > |speeds| ==>
      speeds'[|speeds|] ==
        (dist(prev.value.lat, prev.value.lon, point.lat, point.lon)
         / (point.time.value - prev.value.time.value) as real) * 3.6
    ensures RunningMax(maxSpeed', speeds')
  {
    distance', speeds', maxSpeed' := distance, speeds, maxSpeed;
    if prev.Some? {
      var p := prev.value;
      var d := dist(p.lat, p.lon, point.lat, point.lon);
      distance' := distance' + d;
      if p.time.Some? && point.time.Some? {
        var timeDiff := point.time.value - p.time.value;
        if timeDiff > 0 {
          var speed := (d / timeDiff as real) * 3.6;
          assert (speeds + [speed])[..|speeds|] == speeds;
          speeds' := speeds' + [speed];
          if speed > maxSpeed' {
            maxSpeed' := speed;
          }
          assert speeds'[|speeds|] == speed;
        }
      }
    }
  }

  /** The speeds after `Advance` are the old ones followed by the pair's speed. */
  lemma AdvancedSpeeds(prev: Point, point: Point, speeds: seq<real>, speeds': seq<real>, dist: DistanceFn)
    requires |speeds| <= |speeds'| <= |speeds| + 1 && speeds'[..|speeds|] == speeds
    requires |speeds'| > |speeds| <==>
      prev.time.Some? && point.time.Some? && point.time.value > prev.time.value
    requires prev.time.Some? && point.time.Some? && |speeds'| > |speeds| ==>
      speeds'[|speeds|] ==
        (dist(prev.lat, prev.lon, point.lat, point.lon) / (point.time.value - prev.time.value) as real) * 3.6
    ensures speeds' == speeds + PairSpeed(prev, point, dist)
  {
    if |speeds'| > |speeds| {
      assert speeds' == speeds'[..|speeds|] + [speeds'[|speeds|]];
    } else {
      assert speeds' == speeds'[..|speeds|];
    }
  }

  /** A span widened by a point's time is the span of the points including it. */
  lemma SpanStep(pts: seq<Point>, p: Point, start: Option<int>, end: Option<int>)
    requires EarlierOf(start, EarliestTime(pts), p.time)
    requires LaterOf(end, LatestTime(pts), p.time)
    ensures start == EarliestTime(pts + [p]) && end == LatestTime(pts + [p])
  {
    MinTimeIsEarlier(EarliestTime(pts), p.time, start);
    MaxTimeIsLater(LatestTime(pts), p.time, end);
    assert (pts + [p])[..|pts|] == pts;
  }

  /** Distance, speeds and maximum after `Advance` from the last point are
      those of the points including the new one. */
  lemma MotionStep(pts: seq<Point>, p: Point, distance: real, speeds: seq<real>, maxSpeed: real,
                   dist: DistanceFn)
    requires |pts| == 0 ==> distance == PathDistance(pts, dist) && speeds == Speeds(pts, dist)
    requires |pts| > 0 ==>
      distance == PathDistance(pts, dist) + dist(pts[|pts| - 1].lat, pts[|pts| - 1].lon, p.lat, p.lon)
    requires |Speeds(pts, dist)| <= |speeds| <= |Speeds(pts, dist)| + 1
    requires speeds[..|Speeds(pts, dist)|] == Speeds(pts, dist)
    requires |speeds| > |Speeds(pts, dist)| <==>
      |pts| > 0 && pts[|pts| - 1].time.Some? && p.time.Some? && p.time.value > pts[|pts| - 1].time.value
    requires |pts| > 0 && pts[|pts| - 1].time.Some? && p.time.Some? && |speeds| > |Speeds(pts, dist)| ==>
      speeds[|Speeds(pts, dist)|] ==
        (dist(pts[|pts| - 1].lat, pts[|pts| - 1].lon, p.lat, p.lon)
         / (p.time.value - pts[|pts| - 1].time.value) as real) * 3.6
    requires RunningMax(maxSpeed, speeds)
    ensures distance == PathDistance(pts + [p], dist)
    ensures speeds == Speeds(pts + [p], dist)
    ensures maxSpeed == MaxOrZero(speeds)
  {
    AppendPoint(pts, p, dist);
    MaxOrZeroIsRunningMax(speeds, maxSpeed);
    if |pts| > 0 {
      AdvancedSpeeds(pts[|pts| - 1], p, Speeds(pts, dist), speeds, dist);
    }
  }

  /** The body of the innermost loop: time span, distance and speed for one point. */
  method AddPoint(r: Running, point: Point, dist: DistanceFn) returns (next: Running)
    requires Agrees(r, dist)
    ensures Agrees(next, dist)
    ensures next.points == r.points + [point]
  {
    var start, end := WidenSpan(r.start, r.end, point.time);
    SpanStep(r.points, point, start, end);
    MaxOrZeroIsRunningMax(r.speeds, r.maxSpeed);
    var distance, speeds, maxSpeed := Advance(r.prev, point, r.distance, r.speeds, r.maxSpeed, dist);
    MotionStep(r.points, point, distance, speeds, maxSpeed, dist);
    next := Running(r.points + [point], Some(point), distance, speeds, maxSpeed, start, end);
  }

  /** The innermost loop: every point of one segment, in order. */
  method AddSegment(r: Running, seg: Segment, dist: DistanceFn) returns (next: Running)
    requires Agrees(r, dist)
    ensures Agrees(next, dist)
    ensures next.points == r.points + seg.points
  {
    next := r;
    var k := 0;
    while k < |seg.points|
      invariant 0 <= k <= |seg.points|
      invariant Agrees(next, dist) && next.points == r.points + seg.points[..k]
    {
      assert seg.points[..k + 1] == seg.points[..k] + [seg.points[k]];
      next := AddPoint(next, seg.points[k], dist);
      k := k + 1;
    }
    assert seg.points[..k] == seg.points;
  }

  /** The segment loop: every segment of one track, in order. */
  method AddTrack(r: Running, trk: Track, dist: DistanceFn) returns (next: Running)
    requires Agrees(r, dist)
    ensures Agrees(next, dist)
    ensures next.points == r.points + SegmentPoints(trk.segments)
  {
    next := r;
    var s := 0;
    while s < |trk.segments|
      invariant 0 <= s <= |trk.segments|
      invariant Agrees(next, dist) && next.points == r.points + SegmentPoints(trk.segments[..s])
    {
      ghost var done := SegmentPoints(trk.segments[..s]);
      next := AddSegment(next, trk.segments[s], dist);
      SegmentPointsStep(trk.segments, s);
      ConcatAssoc(r.points, done, trk.segments[s].points);
      s := s + 1;
    }
    assert trk.segments[..s] == trk.segments;
  }

  /** The loop over the speeds that computes the average. */
  method AverageSpeed(speeds: seq<real>) returns (avg: real)
    ensures avg == Mean(speeds)
  {
    avg := 0.0;
    if |speeds| > 0 {
      var totalSpeed := 0.0;
      var k := 0;
      while k < |speeds|
        invariant 0 <= k <= |speeds|
        invariant totalSpeed == Sum(speeds[..k])
      {
        assert speeds[..k + 1][..k] == speeds[..k];
        totalSpeed := totalSpeed + speeds[k];
        k := k + 1;
      }
      assert speeds[..k] == speeds;
      avg := totalSpeed / |speeds| as real;
    }
  }

  /** `ParseGPXWithConfig` after decoding: visit every point of every segment
      of every track in order, keep the first non-empty name, then compute
      the elevation gain, the average speed and the duration. */
  method ParseGPXWithConfig(tracks: seq<Track>, cfg: Config, dist: DistanceFn)
    returns (track: GpxTrack, activity: Activity)
    ensures track == Analyze(tracks, cfg, dist).track
    ensures activity == Analyze(tracks, cfg, dist).activity
  {
    var name := "";
    var r := Running([], None, 0.0, [], 0.0, None, None);
    var t := 0;
    while t < |tracks|
      invariant 0 <= t <= |tracks|
      invariant name == FirstName(tracks[..t])
      invariant Agrees(r, dist) && r.points == Flatten(tracks[..t])
    {
      var trk := tracks[t];
      assert tracks[..t + 1][..t] == tracks[..t];
      if name == "" {
        name := trk.name;
      }
      r := AddTrack(r, trk, dist);
      FlattenStep(tracks, t);
      t := t + 1;
    }
    assert tracks[..t] == tracks;
    var pts := r.points;
    var totalElevation := CalculateSmoothedElevation(pts, cfg);
    var avgSpeed := AverageSpeed(r.speeds);
    var duration := 0;
    if r.start.Some? && r.end.Some? {
      duration := r.end.value - r.start.value;
    }
    track := GpxTrack("", name, pts, None, 0.0, 0.0, 0.0, 0.0, 0, 0.0, 0.0);
    activity := Activity("", name, "activity", r.start, r.end, duration, r.distance, 0, "",
                         totalElevation, r.maxSpeed, avgSpeed, |pts|, None);
  }
}
