/**
 * Record shapes shared by the GPX analyser and the web handlers: the
 * activity summary, the stored GPS track and its points, and the
 * elevation-smoothing configuration.
 *
 * Timestamps are whole seconds; a point or activity without a parsed
 * timestamp carries `None` (the Go code uses the zero `time.Time` for that).
 * Coordinates, elevations, distances and speeds are mathematical reals.
 */
module Models {

  /** A value that may be absent. */
  datatype Option<+T> = None | Some(value: T)

  /** One GPS sample, in document order. Elevation defaults to 0 when absent. */
  datatype Point = Point(lat: real, lon: real, elevation: real, time: Option<int>)

  /** A stored GPS track together with the statistics the track page adds. */
  datatype GpxTrack = GpxTrack(
    id: string,
    name: string,
    points: seq<Point>,
    createdAt: Option<int>,
    startLat: real,
    startLon: real,
    endLat: real,
    endLon: real,
    totalPoints: int,
    minElevation: real,
    maxElevation: real)

  /** The activity summary: durations in seconds, distances in metres, speeds in km/h. */
  datatype Activity = Activity(
    id: string,
    name: string,
    kind: string,
    startTime: Option<int>,
    endTime: Option<int>,
    duration: int,
    distance: real,
    calories: int,
    gpxFile: string,
    totalElevation: real,
    maxSpeed: real,
    avgSpeed: real,
    totalPoints: int,
    createdAt: Option<int>)

  /** Elevation smoothing settings: on/off, median window width, minimum climb. */
  datatype Config = Config(smoothingEnabled: bool, window: int, minGain: real)

  /** The projection of a point sequence onto its elevations. */
  function Elevations(pts: seq<Point>): (es: seq<real>)
    ensures |es| == |pts|
    ensures forall i :: 0 <= i < |pts| ==> es[i] == pts[i].elevation
  {
    if |pts| == 0 then [] else Elevations(pts[..|pts| - 1]) + [pts[|pts| - 1].elevation]
  }
}
