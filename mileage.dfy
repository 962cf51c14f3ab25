/** Urban and country mileage of a track (MileageService): the track is cut
    into consecutive slices, a slice is urban when some candidate city
    outline contains its second point, and the slice distances are summed
    per class. Candidate outlines come from a cache loaded at start-up when
    there is one, otherwise from one query of the city table. */
module Mileage {
  import opened Wrappers
  import opened Domain
  import opened MileageRequestModel
  import opened GeometryCreating
  import opened Repository

  /** The tolerance handed to the track filter before the route line is
      built. */
  const EpsilonToFilterTrackPoints: real := 0.00015

  datatype DistanceCalculatorSettings = DistanceCalculatorSettings(minDetectionSpeed: int, maxMessageTimeout: int)

  /** The distance calculator of the external library: the distance between
      two consecutive messages under the settings. */
  type DistanceCalculator = (TrackPoint, TrackPoint, DistanceCalculatorSettings) -> real

  /** The track filter of the external library: the significant points of a
      track at a tolerance. */
  type TrackFilter = (seq<TrackPoint>, real) -> seq<TrackPoint>

  /** Urban and country mileage; both are always present. */
  datatype MileageResponse = MileageResponse(urban: real, country: real)

  /** Two consecutive messages and whether the second lies in a city. */
  datatype TrackSlice = TrackSlice(firstPoint: TrackPoint, secondPoint: TrackPoint, locatedInCity: bool)

  /** Some candidate outline contains the point of `p`. */
  ghost predicate SomeCandidateContains(topology: Topology, factory: GeometryFactory, p: TrackPoint, geometries: seq<Geometry>) {
    exists i :: 0 <= i < |geometries| && topology.contains(geometries[i], CreatePoint(factory, p))
  }

  /** anyMatch over the candidate outlines, in order. */
  function IsAnyGeometryContainPoint(topology: Topology, factory: GeometryFactory, p: TrackPoint,
                                     geometries: seq<Geometry>): (r: bool)
    ensures r <==> SomeCandidateContains(topology, factory, p, geometries)
    decreases |geometries|
  {
    if geometries == [] then false
    else if topology.contains(geometries[0], CreatePoint(factory, p)) then true
    else
      var r := IsAnyGeometryContainPoint(topology, factory, p, geometries[1..]);
      assert SomeCandidateContains(topology, factory, p, geometries)
             <==> SomeCandidateContains(topology, factory, p, geometries[1..]) by {
        forall i | 0 <= i < |geometries[1..]|
          ensures geometries[1..][i] == geometries[i + 1] { }
        if SomeCandidateContains(topology, factory, p, geometries) {
          var i :| 0 <= i < |geometries| && topology.contains(geometries[i], CreatePoint(factory, p));
          assert geometries[1..][i - 1] == geometries[i];
        }
      }
      r
  }

  /** Only which outlines are candidates matters, not their order or
      repetitions. */
  lemma {:induction false} ContainmentDependsOnMembers(topology: Topology, factory: GeometryFactory, p: TrackPoint,
                                    xs: seq<Geometry>, ys: seq<Geometry>)
    requires forall g :: g in xs <==> g in ys
    ensures IsAnyGeometryContainPoint(topology, factory, p, xs) == IsAnyGeometryContainPoint(topology, factory, p, ys)
  {
    if SomeCandidateContains(topology, factory, p, xs) {
      var i :| 0 <= i < |xs| && topology.contains(xs[i], CreatePoint(factory, p));
      assert xs[i] in ys;
      var j :| 0 <= j < |ys| && ys[j] == xs[i];
    }
    if SomeCandidateContains(topology, factory, p, ys) {
      var i :| 0 <= i < |ys| && topology.contains(ys[i], CreatePoint(factory, p));
      assert ys[i] in xs;
      var j :| 0 <= j < |xs| && xs[j] == ys[i];
    }
  }

  /** The slices of a track: one per pair of consecutive points, the i-th
      being urban when some candidate contains point i + 1. */
  function TrackSlices(topology: Topology, factory: GeometryFactory, points: seq<TrackPoint>,
                       candidates: seq<Geometry>): (r: seq<TrackSlice>)
    ensures |r| == if |points| < 2 then 0 else |points| - 1
  {
    var count := if |points| < 2 then 0 else |points| - 1;
    seq(count, i requires 0 <= i < count =>
      TrackSlice(points[i], points[i + 1], IsAnyGeometryContainPoint(topology, factory, points[i + 1], candidates)))
  }

  /** Slice i runs from point i to point i + 1 and is urban exactly when a
      candidate outline contains point i + 1; point i is never tested. */
  lemma {:induction false} TrackSliceAt(topology: Topology, factory: GeometryFactory, points: seq<TrackPoint>,
                     candidates: seq<Geometry>, i: int)
    requires 0 <= i < |points| - 1
    ensures var s := TrackSlices(topology, factory, points, candidates)[i];
            && s.firstPoint == points[i] && s.secondPoint == points[i + 1]
            && (s.locatedInCity <==> SomeCandidateContains(topology, factory, points[i + 1], candidates))
  {
  }

  /** summingDouble over the slices of one class, in order. */
  function SumDistances(calculator: DistanceCalculator, settings: DistanceCalculatorSettings,
                        slices: seq<TrackSlice>, inCity: bool): real
    decreases |slices|
  {
    if slices == [] then 0.0
    else
      var s := slices[0];
      (if s.locatedInCity == inCity then calculator(s.firstPoint, s.secondPoint, settings) else 0.0)
      + SumDistances(calculator, settings, slices[1..], inCity)
  }

  /** The distance of every slice, whatever its class. */
  function TotalDistance(calculator: DistanceCalculator, settings: DistanceCalculatorSettings,
                         slices: seq<TrackSlice>): real
    decreases |slices|
  {
    if slices == [] then 0.0
    else calculator(slices[0].firstPoint, slices[0].secondPoint, settings)
         + TotalDistance(calculator, settings, slices[1..])
  }

  /** The distance along the unfiltered track, point after point. */
  function RouteDistance(calculator: DistanceCalculator, settings: DistanceCalculatorSettings,
                         points: seq<TrackPoint>): real
    decreases |points|
  {
    if |points| < 2 then 0.0
    else calculator(points[0], points[1], settings) + RouteDistance(calculator, settings, points[1..])
  }

  /** The urban and the country sums make up the whole. */
  lemma {:induction false} PartitionAddsUp(calculator: DistanceCalculator, settings: DistanceCalculatorSettings,
                                           slices: seq<TrackSlice>)
    ensures SumDistances(calculator, settings, slices, true) + SumDistances(calculator, settings, slices, false)
            == TotalDistance(calculator, settings, slices)
    decreases |slices|
  {
    if slices != [] {
      PartitionAddsUp(calculator, settings, slices[1..]);
    }
  }

  /** Sums over consecutive runs of slices add up. */
  lemma {:induction false} SumDistancesConcat(calculator: DistanceCalculator, settings: DistanceCalculatorSettings,
                                              xs: seq<TrackSlice>, ys: seq<TrackSlice>, inCity: bool)
    ensures SumDistances(calculator, settings, xs + ys, inCity)
            == SumDistances(calculator, settings, xs, inCity) + SumDistances(calculator, settings, ys, inCity)
    decreases |xs|
  {
    if xs == [] {
      assert xs + ys == ys;
    } else {
      assert (xs + ys)[0] == xs[0];
      assert (xs + ys)[1..] == xs[1..] + ys;
      SumDistancesConcat(calculator, settings, xs[1..], ys, inCity);
    }
  }

  /** With no urban slice, nothing is urban and everything is country. */
  lemma {:induction false} NoUrbanSlice(calculator: DistanceCalculator, settings: DistanceCalculatorSettings,
                                        slices: seq<TrackSlice>)
    requires forall i :: 0 <= i < |slices| ==> !slices[i].locatedInCity
    ensures SumDistances(calculator, settings, slices, true) == 0.0
    ensures SumDistances(calculator, settings, slices, false) == TotalDistance(calculator, settings, slices)
    decreases |slices|
  {
    if slices != [] {
      assert forall i :: 0 <= i < |slices[1..]| ==> slices[1..][i] == slices[i + 1];
      NoUrbanSlice(calculator, settings, slices[1..]);
    }
  }

  /** The slices of a track cover it end to end: their total is the route
      distance, whichever candidates classify them. */
  lemma {:induction false} SlicesCoverRoute(topology: Topology, factory: GeometryFactory,
                                            calculator: DistanceCalculator, settings: DistanceCalculatorSettings,
                                            points: seq<TrackPoint>, candidates: seq<Geometry>)
    ensures TotalDistance(calculator, settings, TrackSlices(topology, factory, points, candidates))
            == RouteDistance(calculator, settings, points)
    decreases |points|
  {
    var slices := TrackSlices(topology, factory, points, candidates);
    if |points| >= 2 {
      var rest := TrackSlices(topology, factory, points[1..], candidates);
      assert slices[1..] == rest by {
        forall i | 0 <= i < |rest|
          ensures slices[1..][i] == rest[i]
        {
          assert points[1..][i] == points[i + 1] && points[1..][i + 1] == points[i + 2];
        }
      }
      SlicesCoverRoute(topology, factory, calculator, settings, points[1..], candidates);
    }
  }

  /** The urban distance of a track, read off the points directly: the
      distance from point i to point i + 1 counts whenever some candidate
      outline contains point i + 1. */
  ghost function UrbanDistance(topology: Topology, factory: GeometryFactory,
                               calculator: DistanceCalculator, settings: DistanceCalculatorSettings,
                               points: seq<TrackPoint>, candidates: seq<Geometry>): real
    decreases |points|
  {
    if |points| < 2 then 0.0
    else
      (if SomeCandidateContains(topology, factory, points[1], candidates) then calculator(points[0], points[1], settings) else 0.0)
      + UrbanDistance(topology, factory, calculator, settings, points[1..], candidates)
  }

  /** The urban slices of a track sum to its urban distance. */
  lemma {:induction false} UrbanSlicesSum(topology: Topology, factory: GeometryFactory,
                                          calculator: DistanceCalculator, settings: DistanceCalculatorSettings,
                                          points: seq<TrackPoint>, candidates: seq<Geometry>)
    ensures SumDistances(calculator, settings, TrackSlices(topology, factory, points, candidates), true)
            == UrbanDistance(topology, factory, calculator, settings, points, candidates)
    decreases |points|
  {
    var slices := TrackSlices(topology, factory, points, candidates);
    if |points| >= 2 {
      var rest := TrackSlices(topology, factory, points[1..], candidates);
      assert slices[1..] == rest by {
        forall i | 0 <= i < |rest|
          ensures slices[1..][i] == rest[i]
        {
          assert points[1..][i] == points[i + 1] && points[1..][i + 1] == points[i + 2];
        }
      }
      TrackSliceAt(topology, factory, points, candidates, 0);
      UrbanSlicesSum(topology, factory, calculator, settings, points[1..], candidates);
    }
  }

  /** partitioningBy on the located-in-city flag with summingDouble: the
      urban mileage is the urban distance of the track and the country
      mileage is the rest of the route. */
  function FindMileagesByLocatedInCity(topology: Topology, factory: GeometryFactory,
                                       calculator: DistanceCalculator, settings: DistanceCalculatorSettings,
                                       points: seq<TrackPoint>, candidates: seq<Geometry>): (r: MileageResponse)
    ensures r.urban == UrbanDistance(topology, factory, calculator, settings, points, candidates)
    ensures r.country == RouteDistance(calculator, settings, points)
                         - UrbanDistance(topology, factory, calculator, settings, points, candidates)
  {
    var slices := TrackSlices(topology, factory, points, candidates);
    UrbanSlicesSum(topology, factory, calculator, settings, points, candidates);
    PartitionAddsUp(calculator, settings, slices);
    SlicesCoverRoute(topology, factory, calculator, settings, points, candidates);
    MileageResponse(SumDistances(calculator, settings, slices, true), SumDistances(calculator, settings, slices, false))
  }

  /** The urban mileage is the distance of the slices whose end lies in a
      candidate, the country mileage that of the others, and together they
      make up the route distance of the unfiltered track; a track of fewer
      than two points has none of either; and when no candidate contains
      any point after the first, all of it is country. */
  lemma {:induction false} MileagesMeaning(topology: Topology, factory: GeometryFactory,
                        calculator: DistanceCalculator, settings: DistanceCalculatorSettings,
                        points: seq<TrackPoint>, candidates: seq<Geometry>)
    ensures var r := FindMileagesByLocatedInCity(topology, factory, calculator, settings, points, candidates);
            && r.urban == UrbanDistance(topology, factory, calculator, settings, points, candidates)
            && r.country == RouteDistance(calculator, settings, points)
                            - UrbanDistance(topology, factory, calculator, settings, points, candidates)
            && r.urban + r.country == RouteDistance(calculator, settings, points)
            && (|points| < 2 ==> r == MileageResponse(0.0, 0.0))
            && ((forall i :: 1 <= i < |points| ==> !SomeCandidateContains(topology, factory, points[i], candidates))
                ==> r.urban == 0.0 && r.country == RouteDistance(calculator, settings, points))
  {
    var slices := TrackSlices(topology, factory, points, candidates);
    PartitionAddsUp(calculator, settings, slices);
    SlicesCoverRoute(topology, factory, calculator, settings, points, candidates);
    if forall i :: 1 <= i < |points| ==> !SomeCandidateContains(topology, factory, points[i], candidates) {
      forall i | 0 <= i < |slices|
        ensures !slices[i].locatedInCity
      {
        TrackSliceAt(topology, factory, points, candidates, i);
      }
      NoUrbanSlice(calculator, settings, slices);
    }
  }

  /** Two candidate lists with the same members classify every track alike. */
  lemma {:induction false} MileagesDependOnCandidateMembers(topology: Topology, factory: GeometryFactory,
                                         calculator: DistanceCalculator, settings: DistanceCalculatorSettings,
                                         points: seq<TrackPoint>, xs: seq<Geometry>, ys: seq<Geometry>)
    requires forall g :: g in xs <==> g in ys
    ensures FindMileagesByLocatedInCity(topology, factory, calculator, settings, points, xs)
            == FindMileagesByLocatedInCity(topology, factory, calculator, settings, points, ys)
  {
    var sx, sy := TrackSlices(topology, factory, points, xs), TrackSlices(topology, factory, points, ys);
    forall i | 0 <= i < |sx|
      ensures sx[i] == sy[i]
    {
      ContainmentDependsOnMembers(topology, factory, points[i + 1], xs, ys);
    }
    assert sx == sy;
  }

  /** The outlines of the cache entries whose bounding-box key intersects
      the route line, in cache order. */
  function FromLoadedGeometries(topology: Topology, loaded: seq<(Geometry, Geometry)>, line: Geometry): (r: seq<Geometry>)
    ensures |r| <= |loaded|
    ensures forall g :: g in r <==> exists e :: e in loaded && topology.intersects(e.0, line) && e.1 == g
  {
    if loaded == [] then []
    else
      var rest := FromLoadedGeometries(topology, loaded[1..], line);
      assert forall e :: e in loaded <==> e == loaded[0] || e in loaded[1..];
      if topology.intersects(loaded[0].0, line) then [loaded[0].1] + rest else rest
  }

  /** A cache holding the bounding boxes and outlines of the stored cities,
      in any order, yields the same candidates as querying the table. */
  lemma {:induction false} LoadedAgreesWithTable(topology: Topology, loaded: seq<(Geometry, Geometry)>, rows: seq<City>, line: Geometry)
    requires forall e :: e in loaded <==> e in BoxesAndOutlines(rows)
    ensures forall g :: g in FromLoadedGeometries(topology, loaded, line) <==> g in OutlinesCrossedBy(rows, topology, line)
  {
    var entries := BoxesAndOutlines(rows);
    forall g
      ensures g in FromLoadedGeometries(topology, loaded, line) <==> g in OutlinesCrossedBy(rows, topology, line)
    {
      if g in FromLoadedGeometries(topology, loaded, line) {
        var e :| e in loaded && topology.intersects(e.0, line) && e.1 == g;
        var i :| 0 <= i < |entries| && entries[i] == e;
        assert rows[i] in rows;
      }
      if g in OutlinesCrossedBy(rows, topology, line) {
        var c :| c in rows && topology.intersects(c.boundingBox, line) && c.geometry == g;
        var i :| 0 <= i < |rows| && rows[i] == c;
        assert entries[i] in loaded;
      }
    }
  }

  /** The candidate outlines for a track: the route line is built from the
      filtered track, then matched against the cache when one is loaded,
      and otherwise against the city table by one query. */
  function Candidates(trackFilter: TrackFilter, factory: GeometryFactory, topology: Topology,
                      cache: Option<seq<(Geometry, Geometry)>>, points: seq<TrackPoint>, rows: seq<City>): seq<Geometry>
  {
    var line := CreateLineString(factory, trackFilter(points, EpsilonToFilterTrackPoints));
    if cache.Some? then FromLoadedGeometries(topology, cache.value, line) else OutlinesCrossedBy(rows, topology, line)
  }

  /** The mileage of a request, given the service's collaborators, the state
      of its cache and the rows of the city table. */
  function FindMileageWith(trackFilter: TrackFilter, calculator: DistanceCalculator, factory: GeometryFactory,
                           topology: Topology, cache: Option<seq<(Geometry, Geometry)>>,
                           request: MileageRequest, rows: seq<City>): MileageResponse
    requires request.trackPoints.Some? && request.minDetectionSpeed.Some? && request.maxMessageTimeout.Some?
  {
    var settings := DistanceCalculatorSettings(request.minDetectionSpeed.value, request.maxMessageTimeout.value);
    var points := request.trackPoints.value;
    FindMileagesByLocatedInCity(topology, factory, calculator, settings, points,
                                Candidates(trackFilter, factory, topology, cache, points, rows))
  }

  /** The two candidate sources agree: with a cache loaded from the city
      table, in any order, a request gets the same mileage as by querying
      that table. */
  lemma {:induction false} CacheAndQueryAgree(trackFilter: TrackFilter, calculator: DistanceCalculator, factory: GeometryFactory,
                           topology: Topology, loaded: seq<(Geometry, Geometry)>, request: MileageRequest, rows: seq<City>)
    requires request.trackPoints.Some? && request.minDetectionSpeed.Some? && request.maxMessageTimeout.Some?
    requires forall e :: e in loaded <==> e in BoxesAndOutlines(rows)
    ensures FindMileageWith(trackFilter, calculator, factory, topology, Some(loaded), request, rows)
            == FindMileageWith(trackFilter, calculator, factory, topology, None, request, rows)
  {
    var points := request.trackPoints.value;
    var line := CreateLineString(factory, trackFilter(points, EpsilonToFilterTrackPoints));
    var settings := DistanceCalculatorSettings(request.minDetectionSpeed.value, request.maxMessageTimeout.value);
    LoadedAgreesWithTable(topology, loaded, rows, line);
    MileagesDependOnCandidateMembers(topology, factory, calculator, settings, points,
      FromLoadedGeometries(topology, loaded, line), OutlinesCrossedBy(rows, topology, line));
  }

  /** The mileage service and its start-up cache of city outlines keyed by
      bounding box. The spatial relations are those of the city table. */
  class MileageService {
    const trackFilter: TrackFilter
    const distanceCalculator: DistanceCalculator
    const geometryFactory: GeometryFactory
    const cityService: CityTable
    /** Null until a loader sets it. */
    var citiesGeometriesByBoundingBoxes: Option<seq<(Geometry, Geometry)>>

    constructor (trackFilter: TrackFilter, distanceCalculator: DistanceCalculator,
                 geometryFactory: GeometryFactory, cityService: CityTable)
      ensures this.trackFilter == trackFilter && this.distanceCalculator == distanceCalculator
      ensures this.geometryFactory == geometryFactory && this.cityService == cityService
      ensures citiesGeometriesByBoundingBoxes.None?
    {
      this.trackFilter := trackFilter;
      this.distanceCalculator := distanceCalculator;
      this.geometryFactory := geometryFactory;
      this.cityService := cityService;
      this.citiesGeometriesByBoundingBoxes := None;
    }

    method SetCitiesGeometriesByBoundingBoxes(citiesGeometriesByBoundingBoxes: seq<(Geometry, Geometry)>)
      modifies this
      ensures this.citiesGeometriesByBoundingBoxes == Some(citiesGeometriesByBoundingBoxes)
    {
      this.citiesGeometriesByBoundingBoxes := Some(citiesGeometriesByBoundingBoxes);
    }

    /** The candidate outlines for a track, from the cache when one is
        loaded, otherwise from the city table. */
    function FindGeometriesIntersectedByLineStringOfPoints(points: seq<TrackPoint>): (r: seq<Geometry>)
      reads this, cityService
      ensures var line := CreateLineString(geometryFactory, trackFilter(points, EpsilonToFilterTrackPoints));
              forall g :: g in r <==>
                if citiesGeometriesByBoundingBoxes.Some?
                then exists e :: e in citiesGeometriesByBoundingBoxes.value && cityService.topology.intersects(e.0, line) && e.1 == g
                else exists c :: c in cityService.rows && cityService.topology.intersects(c.boundingBox, line) && c.geometry == g
    {
      var line := CreateLineString(geometryFactory, trackFilter(points, EpsilonToFilterTrackPoints));
      if citiesGeometriesByBoundingBoxes.Some? then
        FromLoadedGeometries(cityService.topology, citiesGeometriesByBoundingBoxes.value, line)
      else
        cityService.FindGeometriesWhoseBoundingBoxIntersected(line)
    }

    /** The urban and country mileage of a request: urban is the distance
        of the slices whose second point lies in a candidate outline,
        country is the rest; they add up to the distance along the
        unfiltered track, a track of fewer than two points has none, and it
        is all country when no candidate outline contains any point after
        the first. */
    function FindMileage(request: MileageRequest): (r: MileageResponse)
      reads this, cityService
      requires request.trackPoints.Some? && request.minDetectionSpeed.Some? && request.maxMessageTimeout.Some?
      ensures var points := request.trackPoints.value;
              var settings := DistanceCalculatorSettings(request.minDetectionSpeed.value, request.maxMessageTimeout.value);
              var candidates := FindGeometriesIntersectedByLineStringOfPoints(points);
              var urban := UrbanDistance(cityService.topology, geometryFactory, distanceCalculator, settings, points, candidates);
              && r.urban == urban
              && r.country == RouteDistance(distanceCalculator, settings, points) - urban
              && r.urban + r.country == RouteDistance(distanceCalculator, settings, points)
              && (|points| < 2 ==> r == MileageResponse(0.0, 0.0))
              && ((forall i :: 1 <= i < |points| ==> !SomeCandidateContains(cityService.topology, geometryFactory, points[i], candidates))
                  ==> r.urban == 0.0)
    {
      var settings := DistanceCalculatorSettings(request.minDetectionSpeed.value, request.maxMessageTimeout.value);
      var points := request.trackPoints.value;
      var candidates := FindGeometriesIntersectedByLineStringOfPoints(points);
      MileagesMeaning(cityService.topology, geometryFactory, distanceCalculator, settings, points, candidates);
      FindMileagesByLocatedInCity(cityService.topology, geometryFactory, distanceCalculator, settings, points, candidates)
    }
  }
}
