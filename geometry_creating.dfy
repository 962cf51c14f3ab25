/** The projection of track points into planar geometries
    (GeometryCreatingService): x is the longitude and y the latitude, and
    everything else a point carries is dropped. */
module GeometryCreating {
  import opened Wrappers
  import opened Domain
  import opened MileageRequestModel

  /** A two-dimensional coordinate of the geometry library, with the float
      components the getters return widened to double. */
  datatype PlanarCoordinate = PlanarCoordinate(x: JavaFloat, y: JavaFloat)

  /** The geometry factory: it builds a point or a line string from
      coordinates. Nothing about the geometries it returns is assumed. */
  datatype GeometryFactory = GeometryFactory(
    point: PlanarCoordinate -> Geometry,
    lineString: seq<PlanarCoordinate> -> Geometry)

  /** The latitude and longitude as the getters return them. */
  datatype LatLng = LatLng(latitude: JavaFloat, longitude: JavaFloat)

  function LatLngOf(p: TrackPoint): LatLng {
    LatLng(GetLatitude(p), GetLongitude(p))
  }

  /** The coordinate of a track point: the axes are swapped, so the
      longitude becomes x and the latitude y. */
  function MapToCoordinate(p: TrackPoint): (c: PlanarCoordinate)
    ensures c.x == GetLongitude(p) && c.y == GetLatitude(p)
  {
    PlanarCoordinate(GetLongitude(p), GetLatitude(p))
  }

  /** Reading a coordinate back as latitude and longitude swaps the axes
      again. */
  function ToLatLng(c: PlanarCoordinate): LatLng {
    LatLng(c.y, c.x)
  }

  /** The projection keeps exactly the latitude and the longitude: it is
      undone by reading the axes back, and two points map to the same
      coordinate exactly when their latitudes and longitudes agree. */
  lemma {:induction false} MapToCoordinateKeepsPosition(p: TrackPoint, q: TrackPoint)
    ensures ToLatLng(MapToCoordinate(p)) == LatLngOf(p)
    ensures MapToCoordinate(p) == MapToCoordinate(q) <==> LatLngOf(p) == LatLngOf(q)
  {
  }

  /** The time, altitude, speed and validity of a point do not reach its
      coordinate. */
  lemma {:induction false} MapToCoordinateDropsTheRest(p: TrackPoint, datetime: Option<int>, altitude: Option<int>,
                                    speed: Option<int>, valid: Option<bool>)
    ensures MapToCoordinate(p.(datetime := datetime, altitude := altitude, speed := speed, valid := valid))
            == MapToCoordinate(p)
  {
  }

  /** One coordinate per point, in the order of the points. */
  function MapToCoordinates(points: seq<TrackPoint>): (r: seq<PlanarCoordinate>)
    ensures |r| == |points|
    decreases |points|
  {
    if points == [] then [] else [MapToCoordinate(points[0])] + MapToCoordinates(points[1..])
  }

  /** The i-th coordinate is the projection of the i-th point. */
  lemma {:induction false} MapToCoordinatesAt(points: seq<TrackPoint>, i: int)
    requires 0 <= i < |points|
    ensures MapToCoordinates(points)[i] == PlanarCoordinate(GetLongitude(points[i]), GetLatitude(points[i]))
    decreases |points|
  {
    if i > 0 {
      MapToCoordinatesAt(points[1..], i - 1);
    }
  }

  /** Projecting a concatenation projects each part in turn. */
  lemma {:induction false} MapToCoordinatesConcat(xs: seq<TrackPoint>, ys: seq<TrackPoint>)
    ensures MapToCoordinates(xs + ys) == MapToCoordinates(xs) + MapToCoordinates(ys)
    decreases |xs|
  {
    if xs != [] {
      assert (xs + ys)[0] == xs[0];
      assert (xs + ys)[1..] == xs[1..] + ys;
      MapToCoordinatesConcat(xs[1..], ys);
    } else {
      assert xs + ys == ys;
    }
  }

  /** The point geometry of a track point. */
  function CreatePoint(factory: GeometryFactory, p: TrackPoint): (g: Geometry)
    ensures g == factory.point(PlanarCoordinate(GetLongitude(p), GetLatitude(p)))
  {
    factory.point(MapToCoordinate(p))
  }

  /** The line string through the track points, in order: it is built
      from one coordinate per point, the i-th being (longitude, latitude) of
      the i-th point. */
  function CreateLineString(factory: GeometryFactory, points: seq<TrackPoint>): (g: Geometry)
    ensures exists cs: seq<PlanarCoordinate> ::
      && g == factory.lineString(cs)
      && |cs| == |points|
      && (forall i :: 0 <= i < |points| ==> cs[i] == PlanarCoordinate(GetLongitude(points[i]), GetLatitude(points[i])))
  {
    var cs := MapToCoordinates(points);
    assert forall i :: 0 <= i < |points| ==> cs[i] == PlanarCoordinate(GetLongitude(points[i]), GetLatitude(points[i])) by {
      forall i | 0 <= i < |points|
        ensures cs[i] == PlanarCoordinate(GetLongitude(points[i]), GetLatitude(points[i]))
      {
        MapToCoordinatesAt(points, i);
      }
    }
    factory.lineString(cs)
  }
}
