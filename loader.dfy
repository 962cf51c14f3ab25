/** The start-up step that fills the mileage service's cache of city
    outlines when the configuration asks for it
    (LoaderCitiesGeometriesAndBoundingBoxes). */
module CityGeometriesLoading {
  import opened Wrappers
  import opened Domain
  import opened Repository
  import opened Mileage

  class LoaderCitiesGeometriesAndBoundingBoxes {
    const mileageService: MileageService
    const cityService: CityTable
    /** Fixed when the loader is built. */
    const cityGeometriesShouldBeLoaded: bool

    constructor (mileageService: MileageService, cityService: CityTable, cityGeometriesShouldBeLoaded: bool)
      ensures this.mileageService == mileageService && this.cityService == cityService
      ensures this.cityGeometriesShouldBeLoaded == cityGeometriesShouldBeLoaded
    {
      this.mileageService := mileageService;
      this.cityService := cityService;
      this.cityGeometriesShouldBeLoaded := cityGeometriesShouldBeLoaded;
    }

    /** With the flag on, the cache becomes the bounding box and outline of
        every stored city, read in one query; with the flag off nothing
        changes. Nothing but the cache is written. */
    method InjectCitiesGeometriesAndBoundingBoxes()
      modifies mileageService
      ensures cityGeometriesShouldBeLoaded ==>
        mileageService.citiesGeometriesByBoundingBoxes == Some(BoxesAndOutlines(cityService.rows))
      ensures !cityGeometriesShouldBeLoaded ==>
        mileageService.citiesGeometriesByBoundingBoxes == old(mileageService.citiesGeometriesByBoundingBoxes)
    {
      if cityGeometriesShouldBeLoaded {
        var citiesGeometriesByBoundingBoxes := cityService.FindBoundingBoxesWithGeometries();
        mileageService.SetCitiesGeometriesByBoundingBoxes(citiesGeometriesByBoundingBoxes);
      }
    }
  }

  /** Loading changes no answer: a service whose cache holds the bounding
      boxes and outlines of the rows of its city table, in any order,
      computes every request as it would by querying that table. */
  lemma {:induction false} LoadingPreservesMileage(service: MileageService, request: MileageRequestModel.MileageRequest,
                                loaded: seq<(Geometry, Geometry)>)
    requires request.trackPoints.Some? && request.minDetectionSpeed.Some? && request.maxMessageTimeout.Some?
    requires service.citiesGeometriesByBoundingBoxes == Some(loaded)
    requires forall e :: e in loaded <==> e in BoxesAndOutlines(service.cityService.rows)
    ensures service.FindMileage(request)
            == FindMileageWith(service.trackFilter, service.distanceCalculator, service.geometryFactory,
                               service.cityService.topology, None, request, service.cityService.rows)
  {
    CacheAndQueryAgree(service.trackFilter, service.distanceCalculator, service.geometryFactory,
                       service.cityService.topology, loaded, request, service.cityService.rows);
  }
}
