/** The values the discovery pipeline passes around: coordinates, search
    areas, cities and discovery-process records. */
module Domain {
  import opened Wrappers
  import CityEntity

  /** A point given as latitude and longitude in degrees. Coordinates are
      exact reals; the source holds them as doubles. */
  datatype Coordinate = Coordinate(latitude: real, longitude: real)

  /** A search rectangle given by two corners. */
  datatype AreaCoordinate = AreaCoordinate(leftBottom: Coordinate, rightUpper: Coordinate)

  /** The rectangle's corners are ordered on both axes (equal values allowed). */
  predicate IsOrdered(area: AreaCoordinate) {
    && area.leftBottom.latitude <= area.rightUpper.latitude
    && area.leftBottom.longitude <= area.rightUpper.longitude
  }

  /** A planar geometry of the geometry library. Nothing is known about it
      beyond the operations the model receives as parameters. */
  type Geometry(==, !new)

  /** The spatial relations of the OGC Simple Features model, shared by the
      geometry library and the spatial database (ST_Equals, ST_Intersects,
      ST_Contains). Nothing about them is assumed beyond what a statement
      names. */
  datatype Topology = Topology(
    equals: (Geometry, Geometry) -> bool,
    intersects: (Geometry, Geometry) -> bool,
    contains: (Geometry, Geometry) -> bool)

  /** A settlement (the City transfer object). `cityType` is null when the
      geocoder gave no extra tags. */
  datatype City = City(
    id: Option<nat>,
    name: string,
    geometry: Geometry,
    cityType: Option<CityEntity.Type>,
    boundingBox: Geometry)

  /** Lifecycle of a discovery process. */
  datatype Status = Handling | Success | Error

  /** A planar coordinate (x, y). */
  datatype CoordinateXY = CoordinateXY(x: real, y: real)

  /** A discovery-process record: the search rectangle as a closed ring,
      the step, the declared number of grid points, the number handled so
      far and the status. */
  datatype SearchingCitiesProcess = SearchingCitiesProcess(
    id: Option<nat>,
    bounds: seq<CoordinateXY>,
    searchStep: real,
    totalPoints: int,
    handledPoints: int,
    status: Status)
}
