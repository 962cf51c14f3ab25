# nominatim-adapter-bsu: area discovery and track mileage

This project models two parts of the nominatim adapter.

**City discovery.** A client asks to search a rectangle (two corners and a
step in degrees). The adapter:

- checks that the corners are ordered;
- stores a *searching-cities process* with a declared number of grid points;
- walks the rectangle's grid longitude by longitude, each from the lower to
  the upper latitude, in batches of
  `amountHandledPointsToSaveState` points;
- reverse-geocodes every point and keeps the answers whose `place` tag is
  exactly `city` or `town`, mapped to cities;
- adds each successful batch's size to the process's handled count;
- at the end keeps the first city of every name, stores those whose outline
  is not stored yet, and marks the process SUCCESS. The first failure marks
  it ERROR instead.

**Mileage.** A track of messages is cut into consecutive slices. A slice is
*urban* when some candidate city outline contains its second point. The
slice distances are summed into an urban and a country mileage. The
candidate outlines are those whose bounding box the route line crosses,
where the route line is the filtered track. They come from one of two
places:

- a cache, loaded at start-up when the configuration asks for it;
- otherwise, one query of the city table.

Modules:

| module | file | models |
|---|---|---|
| `Wrappers` | wrappers.dfy | `Option` (nullable references), `Result` (thrown exceptions) |
| `Domain` | domain.dfy | coordinates, rectangles, cities, process records, the spatial relations |
| `CityEntity` | city_entity.dfy | `CityEntity.Type` and its lookup by capital tag |
| `ReverseMapping` | reverse_mapping.dfy | `NominatimReverseResponseToCityMapper` |
| `RequestValidation` | request_validation.dfy | `StartSearchingCitiesRequestValidator` |
| `SearchCity` | search_city.dfy | `SearchCityService.findByCoordinates` |
| `ProcessFactory` | process_factory.dfy | `SearchingCitiesProcessFactory`, including its BigDecimal count |
| `AreaIteration` | area_iteration.dfy | `AreaIterator`, `SubAreaIterator` as classes, proved against the index formula `GridPoint` |
| `Repository` | repository.dfy | the process table (`SearchingCitiesProcessRepository`) and the city table (`CityService`/`CityRepository` as used) |
| `EventHandling` | event_handling.dfy | `EventHandlingSearchCityProcessService` |
| `Discovery` | discovery.dfy | `StartingSearchingCitiesProcessService`: `start`, the task's `run`, the subtasks' `execute` |
| `MileageRequestModel` | mileage_request.dfy | `MileageRequest` and `TrackPoint`: constraints and getters |
| `GeometryCreating` | geometry_creating.dfy | `GeometryCreatingService` |
| `Mileage` | mileage.dfy | `MileageService` |
| `CityGeometriesLoading` | loader.dfy | `LoaderCitiesGeometriesAndBoundingBoxes` |

**External services as parameters:**

- The reverse geocoder is a function of the call's ordinal and the
  coordinate. Call `n` is the `n`-th request the discovery service sends, so
  "asked once per coordinate, in order" can be stated.
- The GeoJSON reader, the envelope, the geometry factory, the spatial
  relations (ST_Equals, ST_Intersects, contains), the track filter and the
  distance calculator are uninterpreted functions.

**Modelling choices:**

- Coordinates and distances are exact reals.
- The tables are sequences of rows in storage order, with distinct ids.

## Model

| member | source | states |
|---|---|---|
| CityEntity.FindIn | src/main/java/by/aurorasoft/nominatim/crud/model/entity/CityEntity.java:59-64 | a found type is one of the candidates and carries exactly the given tag (null-safe); when nothing is found, no candidate carries the tag |
| CityEntity.FindByCapitalJsonValue | src/main/java/by/aurorasoft/nominatim/crud/model/entity/CityEntity.java:59-64 | total lookup: the result carries the given tag, or it is NOT_DEFINED and no type carries that tag |
| CityEntity.TagRoundTrip | src/main/java/by/aurorasoft/nominatim/crud/model/entity/CityEntity.java:50-64 | every type is found again from its own tag |
| CityEntity.KnownTags | src/main/java/by/aurorasoft/nominatim/crud/model/entity/CityEntity.java:51-63 | "yes" is CAPITAL, "4" is REGIONAL, null is NOT_DEFINED |
| CityEntity.OtherTagIsNotDefined | src/main/java/by/aurorasoft/nominatim/crud/model/entity/CityEntity.java:59-64 | any other string is NOT_DEFINED, so matching is exact and case-sensitive |
| ReverseMapping.IdentifyCityType | src/main/java/by/aurorasoft/nominatim/rest/mapper/NominatimReverseResponseToCityMapper.java:35-38 | null exactly when the extra tags are absent; otherwise the type of the capital tag, NOT_DEFINED for an unknown tag |
| ReverseMapping.Map | src/main/java/by/aurorasoft/nominatim/rest/mapper/NominatimReverseResponseToCityMapper.java:21-33 | fails exactly when the GeoJSON does not parse, with the reader's error; otherwise a city without id, with the answer's name, the parsed outline, the outline's envelope as bounding box and the identified type |
| ReverseMapping.TypeRoundTrip | src/main/java/by/aurorasoft/nominatim/rest/mapper/NominatimReverseResponseToCityMapper.java:21-38 | an answer tagged with a type's capital value maps to a city of that type |
| RequestValidation.Validate | src/main/java/by/aurorasoft/nominatim/rest/validator/StartSearchingCitiesRequestValidator.java:13-27 | accepts exactly the rectangles ordered on both axes (equal corners allowed); rejects the others with the fixed message |
| RequestValidation.StepInRange | src/main/java/by/aurorasoft/nominatim/rest/model/StartSearchingCitiesRequest.java:23-25 | a step within the bean bounds [0.01, 5] is positive, as the factory and the walk need |
| RequestValidation.StepIsIgnored | src/main/java/by/aurorasoft/nominatim/rest/validator/StartSearchingCitiesRequestValidator.java:16-20 | only the rectangle is inspected: changing the step never changes the verdict |
| RequestValidation.AcceptedRequestHasPoints | src/main/java/by/aurorasoft/nominatim/rest/validator/StartSearchingCitiesRequestValidator.java:22-27 | an accepted request with a step in bounds yields a process with at least one point |
| RequestValidation.Examples | src/main/java/by/aurorasoft/nominatim/rest/validator/StartSearchingCitiesRequestValidator.java:22-27 | a tiny ordered rectangle is accepted; one whose upper latitude is below the lower one is refused with the message, although its longitudes are ordered |
| SearchCity.FindByCoordinatesMeaning | src/main/java/by/aurorasoft/nominatim/service/searchcity/SearchCityService.java:24-37 | the search succeeds exactly when every coordinate, the i-th asked on call first+i, is answered (and a city's outline parses); it then yields exactly the mapped cities and towns, in input order |
| SearchCity.FindByCoordinates | src/main/java/by/aurorasoft/nominatim/service/searchcity/SearchCityService.java:24-30 | a successful search returns at most one city per coordinate |
| SearchCity.IsCity | src/main/java/by/aurorasoft/nominatim/service/searchcity/SearchCityService.java:32-37 | an answer kept as a city always carries extra tags, so the mapper gives it a type |
| SearchCity.FindByConcatenation | src/main/java/by/aurorasoft/nominatim/service/searchcity/SearchCityService.java:24-30 | searching two lists one after the other gives the search of their concatenation: both succeed and their cities concatenate, or it fails |
| SearchCity.SucceedsWhenAllAnswered | src/main/java/by/aurorasoft/nominatim/service/searchcity/SearchCityService.java:24-30 | the search succeeds exactly when every coordinate is answered |
| SearchCity.FirstUnanswered | src/main/java/by/aurorasoft/nominatim/service/searchcity/SearchCityService.java:24-30 | the position of the first failing coordinate is within the list (the length when none fails) |
| SearchCity.FirstUnansweredMeaning | src/main/java/by/aurorasoft/nominatim/service/searchcity/SearchCityService.java:24-30 | every coordinate before the first failure is answered and the one at it is not |
| SearchCity.FirstUnansweredUnique | src/main/java/by/aurorasoft/nominatim/service/searchcity/SearchCityService.java:24-30 | a position with every earlier coordinate answered and itself unanswered is the first failure |
| SearchCity.RequestsMade | src/main/java/by/aurorasoft/nominatim/service/searchcity/SearchCityService.java:24-30 | a search never sends more requests than it has coordinates |
| SearchCity.RequestsMadeMeaning | src/main/java/by/aurorasoft/nominatim/service/searchcity/SearchCityService.java:24-30 | a successful search asks once per coordinate; a failed one stops right after the first failing coordinate |
| SearchCity.SearchFailsAtFirstUnanswered | src/main/java/by/aurorasoft/nominatim/service/searchcity/SearchCityService.java:24-30 | success exactly when there is no failing coordinate |
| SearchCity.FirstUnansweredAfterPrefix | src/main/java/by/aurorasoft/nominatim/service/searchcity/SearchCityService.java:24-30 | after an answered prefix, the first failure in a list is the first failure of the whole walk, whatever follows |
| SearchCity.NoCityNoResult | src/main/java/by/aurorasoft/nominatim/service/searchcity/SearchCityService.java:24-37 | answers that are not cities or towns, or no coordinates at all, give an empty list |
| SearchCity.PlaceExamples | src/main/java/by/aurorasoft/nominatim/service/searchcity/SearchCityService.java:19-37 | "city" and "town" are kept; "village", "cityscape", "City", a missing place and missing extra tags are not |
| ProcessFactory.AxisPointCount | src/main/java/by/aurorasoft/nominatim/service/factory/SearchingCitiesProcessFactory.java:49-54 | for start <= end: at least one point, with (r-1)*step <= end-start < r*step, so r is floor+1 rather than ceiling+1; exactly one point when start = end |
| ProcessFactory.TotalPoints | src/main/java/by/aurorasoft/nominatim/service/factory/SearchingCitiesProcessFactory.java:30-47 | an ordered rectangle declares at least one point (it is the grid's size, see AreaIteration.GridSize) |
| ProcessFactory.Bounds | src/main/java/by/aurorasoft/nominatim/service/factory/SearchingCitiesProcessFactory.java:56-87 | a closed ring of five points starting at the left-bottom corner, with latitude as x; the first edge runs along the longitude and the third point is the right-upper corner; all points are corners, edges are axis-parallel, and the four corners are distinct unless the rectangle is flat |
| ProcessFactory.Create | src/main/java/by/aurorasoft/nominatim/service/factory/SearchingCitiesProcessFactory.java:21-28 | no id, status HANDLING, nothing handled, the given step, the rectangle's ring, and the declared total TotalPoints(area, step), at least one for an ordered rectangle |
| ProcessFactory.Subtract | src/main/java/by/aurorasoft/nominatim/service/factory/SearchingCitiesProcessFactory.java:50-51 | BigDecimal.subtract is exact: the value is the difference of the values, at the larger scale |
| ProcessFactory.DivideUp | src/main/java/by/aurorasoft/nominatim/service/factory/SearchingCitiesProcessFactory.java:52 | RoundingMode.UP on non-negative operands is the ceiling: (r-1)*d < n <= r*d |
| ProcessFactory.Divide | src/main/java/by/aurorasoft/nominatim/service/factory/SearchingCitiesProcessFactory.java:52 | BigDecimal.divide(divisor, UP) keeps the dividend's scale, and for a non-negative dividend and positive divisor its value is the real quotient rounded up to that scale: quotient <= value < quotient + one unit of the last place |
| ProcessFactory.LongValue | src/main/java/by/aurorasoft/nominatim/service/factory/SearchingCitiesProcessFactory.java:53 | truncation toward zero: for a non-negative value, r <= value < r + 1; for a negative one, r - 1 < value <= r |
| ProcessFactory.AxisPointCountAsWritten | src/main/java/by/aurorasoft/nominatim/service/factory/SearchingCitiesProcessFactory.java:49-54 | the count as written is at least one for ordered ends and a positive step |
| ProcessFactory.AsWrittenBounds | src/main/java/by/aurorasoft/nominatim/service/factory/SearchingCitiesProcessFactory.java:49-54 | the count as written is never below the grid's count on that axis and at most one above it |
| ProcessFactory.ExampleCounts | src/main/java/by/aurorasoft/nominatim/service/factory/SearchingCitiesProcessFactory.java:49-54 | the factory's example axes (52.959981 to 52.998760 and 25.903515 to 25.914997 at 0.01) count 4 and 2 points, both as written and corrected |
| ProcessFactory.DeclaredCountExceedsGrid | src/main/java/by/aurorasoft/nominatim/service/factory/SearchingCitiesProcessFactory.java:49-54 | 1.0 to 3.0 at step 1.05: the code declares 3 points, but the grid holds 2 |
| ProcessFactory.SpellingDecidesCount | src/main/java/by/aurorasoft/nominatim/service/factory/SearchingCitiesProcessFactory.java:49-54 | the scale of `valueOf`'s spelling decides the rounding: 1.0..3.0 at step 1.081 declares 2 points at scale 1 (as `Double.toString` spells them) but would declare 3 at scale 0 |
| AreaIteration.GridSize | src/main/java/by/aurorasoft/nominatim/service/searchcity/StartingSearchingCitiesProcessService.java:99-124 | the walk of an ordered rectangle has at least one point; its length is defined as the total a created process declares |
| AreaIteration.Grid | src/main/java/by/aurorasoft/nominatim/service/searchcity/StartingSearchingCitiesProcessService.java:99-138 | the walk has GridSize points |
| AreaIteration.GridAt | src/main/java/by/aurorasoft/nominatim/service/searchcity/StartingSearchingCitiesProcessService.java:104-138 | the indexing `CollectBatch` relies on: the k-th point of the walk is the grid point at row k % n, column k / n |
| AreaIteration.GridStart | src/main/java/by/aurorasoft/nominatim/service/searchcity/StartingSearchingCitiesProcessService.java:90-108 | the first point of the walk is exactly the left-bottom corner |
| AreaIteration.GridInsideArea | src/main/java/by/aurorasoft/nominatim/service/searchcity/StartingSearchingCitiesProcessService.java:114-124 | every point of the walk lies inside the rectangle, edges included |
| AreaIteration.GridPointsDistinct | src/main/java/by/aurorasoft/nominatim/service/searchcity/StartingSearchingCitiesProcessService.java:104-138 | no point is visited twice |
| AreaIteration.Successor | src/main/java/by/aurorasoft/nominatim/service/searchcity/StartingSearchingCitiesProcessService.java:126-138 | the point after k is one step up in the same column, or the bottom latitude of the next column |
| AreaIteration.AdvanceAt | src/main/java/by/aurorasoft/nominatim/service/searchcity/StartingSearchingCitiesProcessService.java:114-124 | from point k the latitude can advance exactly when k is not on the top row, and some axis can advance exactly when k is not the last point |
| AreaIteration.AreaIterator.constructor | src/main/java/by/aurorasoft/nominatim/service/searchcity/StartingSearchingCitiesProcessService.java:90-97 | a fresh walk over the given rectangle and step, nothing produced yet (current is one step below the lower latitude) |
| AreaIteration.AreaIterator.HasNext | src/main/java/by/aurorasoft/nominatim/service/searchcity/StartingSearchingCitiesProcessService.java:99-102 | true exactly when points of the walk remain |
| AreaIteration.AreaIterator.HasNextState | src/main/java/by/aurorasoft/nominatim/service/searchcity/StartingSearchingCitiesProcessService.java:114-124 | the two axis tests on the current coordinate mean "points remain" and "not on the top row" |
| AreaIteration.AreaIterator.Next | src/main/java/by/aurorasoft/nominatim/service/searchcity/StartingSearchingCitiesProcessService.java:104-138 | returns the next grid point in walking order, or NoSuchElementException with the state unchanged when the walk is over |
| AreaIteration.SubAreaIterator.constructor | src/main/java/by/aurorasoft/nominatim/service/searchcity/StartingSearchingCitiesProcessService.java:145-148 | a batch over the shared walk with no points passed |
| AreaIteration.SubAreaIterator.HasNext | src/main/java/by/aurorasoft/nominatim/service/searchcity/StartingSearchingCitiesProcessService.java:150-153 | true exactly when the batch is not full and the walk goes on |
| AreaIteration.SubAreaIterator.Next | src/main/java/by/aurorasoft/nominatim/service/searchcity/StartingSearchingCitiesProcessService.java:155-159 | counts the point and returns the shared walk's next point |
| AreaIteration.CollectBatch | src/main/java/by/aurorasoft/nominatim/service/searchcity/StartingSearchingCitiesProcessService.java:66-68 | draining a fresh batch yields the next min(batch size, remaining) points of the walk, in order, and moves the walk past them |
| Discovery.DedupFromInput | src/main/java/by/aurorasoft/nominatim/service/searchcity/StartingSearchingCitiesProcessService.java:62-72 | kept cities come from the input and carry no name seen before |
| Discovery.DedupFrom | src/main/java/by/aurorasoft/nominatim/service/searchcity/StartingSearchingCitiesProcessService.java:62-72 | the first-of-each-name filter never keeps more cities than it is given |
| Discovery.DedupDistinctNames | src/main/java/by/aurorasoft/nominatim/service/searchcity/StartingSearchingCitiesProcessService.java:62-72 | no two kept cities share a name |
| Discovery.DedupNames | src/main/java/by/aurorasoft/nominatim/service/searchcity/StartingSearchingCitiesProcessService.java:62-72 | the kept cities carry every new name of the input |
| Discovery.DedupKeepsFirst | src/main/java/by/aurorasoft/nominatim/service/searchcity/StartingSearchingCitiesProcessService.java:62-72 | the first city of every new name is kept |
| Discovery.DedupConcat | src/main/java/by/aurorasoft/nominatim/service/searchcity/StartingSearchingCitiesProcessService.java:65-72 | filtering batch after batch with a shared name set equals filtering the concatenation |
| Discovery.KeepFirstByName | src/main/java/by/aurorasoft/nominatim/service/searchcity/StartingSearchingCitiesProcessService.java:62-72 | the loop of `namesAlreadyFound.add` keeps exactly the first city of each new name, in order, and leaves the set holding every name seen |
| Discovery.AmountOfSubAreas | src/main/java/by/aurorasoft/nominatim/service/searchcity/StartingSearchingCitiesProcessService.java:80-82 | ceil(total / batch size): the fewest batches that cover the declared total |
| Discovery.BatchStart | src/main/java/by/aurorasoft/nominatim/service/searchcity/StartingSearchingCitiesProcessService.java:65-70 | the batch holding point k starts at or before k |
| Discovery.BatchStartOf | src/main/java/by/aurorasoft/nominatim/service/searchcity/StartingSearchingCitiesProcessService.java:65-70 | every point of batch i belongs to the batch that starts at i * batch size |
| Discovery.BatchStartRoundsDown | src/main/java/by/aurorasoft/nominatim/service/searchcity/StartingSearchingCitiesProcessService.java:65-70 | the batch start is the point rounded down to a multiple of the batch size |
| Discovery.PointsWalked | src/main/java/by/aurorasoft/nominatim/service/searchcity/StartingSearchingCitiesProcessService.java:63-70 | a run never asks about more points than the grid has |
| Discovery.WholeGridWalked | src/main/java/by/aurorasoft/nominatim/service/searchcity/StartingSearchingCitiesProcessService.java:63-82 | a declared total of at least the grid's size, corrected or as written, makes the run walk the whole grid |
| Discovery.CreatedProcessWalksWholeGrid | src/main/java/by/aurorasoft/nominatim/service/searchcity/StartingSearchingCitiesProcessService.java:63-82 | a created process's run walks every grid point |
| Discovery.StartingSearchingCitiesProcessService.constructor | src/main/java/by/aurorasoft/nominatim/service/searchcity/StartingSearchingCitiesProcessService.java:31-39 | the service's collaborators and batch size, with no request sent yet |
| Discovery.StartingSearchingCitiesProcessService.Start | src/main/java/by/aurorasoft/nominatim/service/searchcity/StartingSearchingCitiesProcessService.java:41-46 | returns the created process as first saved; afterwards exactly one row was added, the earlier rows are unchanged, and the new row differs from the returned process only in its handled count and status: SUCCESS with every declared point handled, or ERROR |
| Discovery.StartingSearchingCitiesProcessService.Run | src/main/java/by/aurorasoft/nominatim/service/searchcity/StartingSearchingCitiesProcessService.java:59-78 | one request per walked point up to the first failure. On success: the first city of each name whose outline is new is stored, the city id counter advances by their number, the handled count grows by the points walked, and the status is SUCCESS. On failure: nothing is stored and the city id counter is unchanged, the handled count grows by the whole batches before the failing one, and the status is ERROR |
| Discovery.StartingSearchingCitiesProcessService.FindUniqueCities | src/main/java/by/aurorasoft/nominatim/service/searchcity/StartingSearchingCitiesProcessService.java:62-73 | the batched pipeline succeeds exactly when the search of the walked prefix does; it then yields that search's cities with the first of each name kept. The handled count grows by the walked points, or by the whole batches before the failure; the city table is untouched |
| Discovery.StartingSearchingCitiesProcessService.SearchRounds | src/main/java/by/aurorasoft/nominatim/service/searchcity/StartingSearchingCitiesProcessService.java:63-71 | the rounds up to the flatMap succeed exactly when the search of the walked prefix does, and then yield its cities in walking order; requests grow by the points asked; the handled count grows by the walked points, or by the whole batches before the failure; the city table is untouched |
| Discovery.StartingSearchingCitiesProcessService.SearchRound | src/main/java/by/aurorasoft/nominatim/service/searchcity/StartingSearchingCitiesProcessService.java:66-70 | one batch drawn from the shared walk and searched: a success extends the search, the request count and the handled count of the walk so far to the batch's end; a failure fails the whole walk at a point of this batch and records nothing |
| Discovery.StartingSearchingCitiesProcessService.SearchBatch | src/main/java/by/aurorasoft/nominatim/service/searchcity/StartingSearchingCitiesProcessService.java:69-70 | the same for a batch already drawn as points from..to of the walk |
| Discovery.StartingSearchingCitiesProcessService.Execute | src/main/java/by/aurorasoft/nominatim/service/searchcity/StartingSearchingCitiesProcessService.java:171-181 | returns the search of the batch's coordinates; on success the handled count grows by exactly the batch's size, on failure nothing is recorded; the city table is untouched |
| Discovery.StartingSearchingCitiesProcessService.RoundOutcome | src/main/java/by/aurorasoft/nominatim/service/searchcity/StartingSearchingCitiesProcessService.java:65-73 | after an answered prefix, a batch's success extends the walk's search at one request per point, and its failure is the walk's failure inside the batch |
| Discovery.StartingSearchingCitiesProcessService.FailureInBatch | src/main/java/by/aurorasoft/nominatim/service/searchcity/StartingSearchingCitiesProcessService.java:65-77 | a failing batch fails the whole walk at its first failing point and costs the requests before the batch and in it |
| Discovery.BatchSucceeded | src/main/java/by/aurorasoft/nominatim/service/searchcity/StartingSearchingCitiesProcessService.java:65-71 | a successful batch after an answered prefix extends its cities |
| Discovery.SettledRow | src/main/java/by/aurorasoft/nominatim/crud/repository/SearchingCitiesProcessRepository.java:14-22 | updating the newest process by id changes only its row |
| EventHandling.NotYetStored | src/main/java/by/aurorasoft/nominatim/service/searchcity/EventHandlingSearchCityProcessService.java:66-68 | the filter keeps at most the found cities |
| EventHandling.NotYetStoredMembers | src/main/java/by/aurorasoft/nominatim/service/searchcity/EventHandlingSearchCityProcessService.java:66-68 | a found city is kept exactly when no stored outline is spatially equal to its own |
| EventHandling.NotYetStoredSnoc | src/main/java/by/aurorasoft/nominatim/service/searchcity/EventHandlingSearchCityProcessService.java:66-68 | the filter checks each city once, in order, against the table as it was before saving |
| EventHandling.EventHandlingSearchCityProcessService.constructor | src/main/java/by/aurorasoft/nominatim/service/searchcity/EventHandlingSearchCityProcessService.java:38-44 | the handlers work on the given tables |
| EventHandling.EventHandlingSearchCityProcessService.OnStartSearchCities | src/main/java/by/aurorasoft/nominatim/service/searchcity/EventHandlingSearchCityProcessService.java:46-52 | the process created from exactly this rectangle and step is saved once under a fresh id and returned as saved |
| EventHandling.EventHandlingSearchCityProcessService.OnSuccessFindCitiesBySubtask | src/main/java/by/aurorasoft/nominatim/service/searchcity/EventHandlingSearchCityProcessService.java:54-57 | the process's handled count grows by the amount; nothing else changes |
| EventHandling.EventHandlingSearchCityProcessService.OnFailedFindCitiesBySubtask | src/main/java/by/aurorasoft/nominatim/service/searchcity/EventHandlingSearchCityProcessService.java:59-62 | neither table changes |
| EventHandling.EventHandlingSearchCityProcessService.OnSuccessFindAllCities | src/main/java/by/aurorasoft/nominatim/service/searchcity/EventHandlingSearchCityProcessService.java:64-72 | appends, in order and under fresh ids, exactly the found cities whose outline was not stored before the event (so two new cities sharing an outline are both saved), then sets the status to SUCCESS; the id counter advances by the number stored |
| EventHandling.EventHandlingSearchCityProcessService.OnFailedFindAllCities | src/main/java/by/aurorasoft/nominatim/service/searchcity/EventHandlingSearchCityProcessService.java:74-78 | the status becomes ERROR, no city is saved, nothing else changes |
| EventHandling.FoundCitiesStored | src/main/java/by/aurorasoft/nominatim/service/searchcity/EventHandlingSearchCityProcessService.java:64-70 | with a reflexive spatial equality, every found city's outline is stored afterwards |
| Repository.UpdateWhereId | src/main/java/by/aurorasoft/nominatim/crud/repository/SearchingCitiesProcessRepository.java:14-22 | an UPDATE ... WHERE id changes exactly the row with that id, and a null id matches no row |
| Repository.StatusSetOnlyOnRow | src/main/java/by/aurorasoft/nominatim/crud/repository/SearchingCitiesProcessRepository.java:14-16 | only the status changes, and only on the row with the id, where it becomes the new status |
| Repository.HandledIncreasedOnlyOnRow | src/main/java/by/aurorasoft/nominatim/crud/repository/SearchingCitiesProcessRepository.java:18-22 | only the handled count changes, raised by delta on the row with the id and by nothing elsewhere |
| Repository.WhereStatus | src/main/java/by/aurorasoft/nominatim/crud/repository/SearchingCitiesProcessRepository.java:24-25 | exactly the rows with the status |
| Repository.IncreaseComposes | src/main/java/by/aurorasoft/nominatim/crud/repository/SearchingCitiesProcessRepository.java:18-22 | two increases of the handled count are one increase by their sum |
| Repository.UpdateKeepsKeys | src/main/java/by/aurorasoft/nominatim/crud/repository/SearchingCitiesProcessRepository.java:14-22 | updates by id keep the ids distinct |
| Repository.StatusUpdateListed | src/main/java/by/aurorasoft/nominatim/crud/repository/SearchingCitiesProcessRepository.java:14-25 | after updateStatus only that row's status changes, with no transition guard, and the row is then listed under the new status |
| Repository.Page | src/main/java/by/aurorasoft/nominatim/crud/service/SearchingCitiesProcessService.java:35-38 | a page request is refused for a negative number or a size below one; otherwise the page is at most pageSize consecutive items from position number*size |
| Repository.EveryItemOnItsPage | src/main/java/by/aurorasoft/nominatim/crud/service/SearchingCitiesProcessService.java:35-38 | every item appears on the page its position names |
| Repository.ProcessTable.constructor | src/main/java/by/aurorasoft/nominatim/crud/repository/SearchingCitiesProcessRepository.java:12 | an empty table |
| Repository.ProcessTable.Save | src/main/java/by/aurorasoft/nominatim/service/searchcity/EventHandlingSearchCityProcessService.java:47-51 | appends the process under a fresh id and returns the stored copy |
| Repository.ProcessTable.UpdateStatus | src/main/java/by/aurorasoft/nominatim/crud/repository/SearchingCitiesProcessRepository.java:14-16 | the status of the row with that id is replaced; nothing else changes |
| Repository.ProcessTable.IncreaseHandledPoints | src/main/java/by/aurorasoft/nominatim/crud/repository/SearchingCitiesProcessRepository.java:18-22 | delta is added to the handled count of the row with that id; nothing else changes |
| Repository.ProcessTable.FindByStatus | src/main/java/by/aurorasoft/nominatim/crud/service/SearchingCitiesProcessService.java:34-39 | at most one page, holding only stored rows with the requested status; refused for an invalid page request |
| Repository.CityTable.constructor | src/main/java/by/aurorasoft/nominatim/crud/repository/CityRepository.java:12 | an empty city table with the database's spatial relations |
| Repository.CityTable.SaveAll | src/main/java/by/aurorasoft/nominatim/service/searchcity/EventHandlingSearchCityProcessService.java:69 | appends the cities in order under consecutive fresh ids |
| Repository.CityTable.FindBoundingBoxesWithGeometries | src/main/java/by/aurorasoft/nominatim/crud/repository/CityRepository.java:18-19 | one (bounding box, outline) pair per stored city |
| Repository.BoxesAndOutlines | src/main/java/by/aurorasoft/nominatim/crud/service/CityService.java:49-64 | one (bounding box, outline) pair per city, in order |
| Repository.OutlinesCrossedBy | src/main/java/by/aurorasoft/nominatim/crud/repository/CityRepository.java:21-23 | an outline is returned exactly when it belongs to a stored city whose bounding box the line intersects |
| Repository.CityTable.IsExistByGeometry | src/main/java/by/aurorasoft/nominatim/crud/repository/CityRepository.java:14-16 | true exactly when some stored city's outline is spatially equal (ST_Equals) to the given one |
| Repository.CityTable.FindGeometriesWhoseBoundingBoxIntersected | src/main/java/by/aurorasoft/nominatim/crud/service/CityService.java:66-75 | at most one outline per row, and exactly the outlines of the stored cities whose bounding box the line intersects |
| Repository.WithIds | src/main/java/by/aurorasoft/nominatim/service/searchcity/EventHandlingSearchCityProcessService.java:69 | the cities, in order, with consecutive ids from the first free one |
| MileageRequestModel.GetLatitude | src/main/java/by/aurorasoft/nominatim/rest/model/MileageRequest.java:92-95 | the stored latitude, NaN exactly when it is absent |
| MileageRequestModel.GetLongitude | src/main/java/by/aurorasoft/nominatim/rest/model/MileageRequest.java:97-100 | the stored longitude, NaN exactly when it is absent |
| MileageRequestModel.GetAltitude | src/main/java/by/aurorasoft/nominatim/rest/model/MileageRequest.java:102-105 | the stored altitude, Integer.MIN_VALUE when absent |
| MileageRequestModel.GetSpeed | src/main/java/by/aurorasoft/nominatim/rest/model/MileageRequest.java:107-110 | the stored speed, Integer.MIN_VALUE when absent |
| MileageRequestModel.IsValid | src/main/java/by/aurorasoft/nominatim/rest/model/MileageRequest.java:112-115 | true exactly when the flag is present and true |
| MileageRequestModel.IsValidTrackPoint | src/main/java/by/aurorasoft/nominatim/rest/model/MileageRequest.java:52-115 | on a point that meets the field constraints the getters return the stored values, finite and in range, and never the absent-value sentinels |
| MileageRequestModel.IsValidRequest | src/main/java/by/aurorasoft/nominatim/rest/model/MileageRequest.java:22-32 | a request that meets the constraints has a track, a detection speed and a timeout, and every point's coordinates are finite |
| MileageRequestModel.SentinelsAreInvalid | src/main/java/by/aurorasoft/nominatim/rest/model/MileageRequest.java:46-75 | a point for which a getter returns the NaN or MIN_VALUE stand-in for latitude, longitude or speed violates the constraints |
| MileageRequestModel.AltitudeSentinelIsAmbiguous | src/main/java/by/aurorasoft/nominatim/rest/model/MileageRequest.java:48-67 | a missing altitude reads like the legal altitude Integer.MIN_VALUE |
| MileageRequestModel.ShortOrNegativeRequestIsInvalid | src/main/java/by/aurorasoft/nominatim/rest/model/MileageRequest.java:22-32 | fewer than two points, or a negative speed or timeout, is refused |
| MileageRequestModel.OneInvalidPointSpoilsRequest | src/main/java/by/aurorasoft/nominatim/rest/model/MileageRequest.java:22-24 | the request's points are validated one by one (`@Valid`), so one bad point refuses the request |
| GeometryCreating.MapToCoordinate | src/main/java/by/aurorasoft/nominatim/service/mileage/GeometryCreatingService.java:32-34 | x is the longitude, y the latitude |
| GeometryCreating.MapToCoordinateKeepsPosition | src/main/java/by/aurorasoft/nominatim/service/mileage/GeometryCreatingService.java:32-34 | the projection is undone by swapping back, and two points map alike exactly when their positions agree |
| GeometryCreating.MapToCoordinateDropsTheRest | src/main/java/by/aurorasoft/nominatim/service/mileage/GeometryCreatingService.java:32-34 | time, altitude, speed and validity do not reach the coordinate |
| GeometryCreating.MapToCoordinates | src/main/java/by/aurorasoft/nominatim/service/mileage/GeometryCreatingService.java:26-30 | one coordinate per point |
| GeometryCreating.MapToCoordinatesAt | src/main/java/by/aurorasoft/nominatim/service/mileage/GeometryCreatingService.java:26-34 | the i-th coordinate is (longitude, latitude) of the i-th point |
| GeometryCreating.MapToCoordinatesConcat | src/main/java/by/aurorasoft/nominatim/service/mileage/GeometryCreatingService.java:26-30 | the mapping is applied element-wise, in order |
| GeometryCreating.CreatePoint | src/main/java/by/aurorasoft/nominatim/service/mileage/GeometryCreatingService.java:21-24 | the factory's point at (longitude, latitude) |
| GeometryCreating.CreateLineString | src/main/java/by/aurorasoft/nominatim/service/mileage/GeometryCreatingService.java:16-19 | the line string is built from one coordinate per point, the i-th being (longitude, latitude) of the i-th point |
| Mileage.IsAnyGeometryContainPoint | src/main/java/by/aurorasoft/nominatim/service/mileage/MileageService.java:100-105 | true exactly when some candidate outline contains the point |
| Mileage.ContainmentDependsOnMembers | src/main/java/by/aurorasoft/nominatim/service/mileage/MileageService.java:100-105 | only which outlines are candidates matters, not their order or repetition |
| Mileage.TrackSlices | src/main/java/by/aurorasoft/nominatim/service/mileage/MileageService.java:56-63 | n points give n-1 slices, and fewer than two points give none |
| Mileage.TrackSliceAt | src/main/java/by/aurorasoft/nominatim/service/mileage/MileageService.java:57-63 | slice i runs from point i to point i+1 of the unfiltered track and is urban exactly when a candidate contains point i+1 |
| Mileage.PartitionAddsUp | src/main/java/by/aurorasoft/nominatim/service/mileage/MileageService.java:64-69 | the urban sum plus the country sum is the sum over all slices |
| Mileage.UrbanSlicesSum | src/main/java/by/aurorasoft/nominatim/service/mileage/MileageService.java:56-69 | the slices flagged as in a city sum to UrbanDistance, the distance over the pairs of consecutive points whose second point some candidate contains |
| Mileage.FindMileagesByLocatedInCity | src/main/java/by/aurorasoft/nominatim/service/mileage/MileageService.java:52-70 | the partition's true side is UrbanDistance and its false side is the route distance minus UrbanDistance |
| Mileage.SumDistancesConcat | src/main/java/by/aurorasoft/nominatim/service/mileage/MileageService.java:64-69 | sums over consecutive runs of slices add up |
| Mileage.NoUrbanSlice | src/main/java/by/aurorasoft/nominatim/service/mileage/MileageService.java:64-69 | without urban slices the urban sum is 0 and everything is country |
| Mileage.SlicesCoverRoute | src/main/java/by/aurorasoft/nominatim/service/mileage/MileageService.java:56-75 | the slice distances, each the calculator on two consecutive points, add up to the distance along the whole track |
| Mileage.MileagesMeaning | src/main/java/by/aurorasoft/nominatim/service/mileage/MileageService.java:52-75 | urban is the distance of the slices whose end lies in a candidate (UrbanDistance), country is the rest of the route; together they are the distance along the unfiltered track; fewer than two points give (0, 0); when no candidate contains any point after the first, all of it is country |
| Mileage.MileagesDependOnCandidateMembers | src/main/java/by/aurorasoft/nominatim/service/mileage/MileageService.java:52-70 | candidate lists with the same members give the same mileage |
| Mileage.FromLoadedGeometries | src/main/java/by/aurorasoft/nominatim/service/mileage/MileageService.java:91-98 | an outline is selected exactly when a cache entry whose bounding-box key intersects the line holds it |
| Mileage.LoadedAgreesWithTable | src/main/java/by/aurorasoft/nominatim/service/mileage/MileageService.java:77-98 | a cache holding the table's (bounding box, outline) pairs, in any order, selects the same outlines as the query |
| Mileage.CacheAndQueryAgree | src/main/java/by/aurorasoft/nominatim/service/mileage/MileageService.java:77-98 | with such a cache a request gets the same mileage as by querying the table |
| Mileage.MileageService.constructor | src/main/java/by/aurorasoft/nominatim/service/mileage/MileageService.java:28-35 | the collaborators, with the cache null |
| Mileage.MileageService.SetCitiesGeometriesByBoundingBoxes | src/main/java/by/aurorasoft/nominatim/service/mileage/MileageService.java:48-50 | the cache becomes the given pairs; nothing else is written |
| Mileage.MileageService.FindGeometriesIntersectedByLineStringOfPoints | src/main/java/by/aurorasoft/nominatim/service/mileage/MileageService.java:77-89 | against the line through the track filtered at 0.00015: from the cache when it is loaded, else from the table, exactly the outlines whose bounding box the line intersects |
| Mileage.MileageService.FindMileage | src/main/java/by/aurorasoft/nominatim/service/mileage/MileageService.java:37-46 | urban is the summed distance of the slices whose second point lies in a candidate outline of this service (UrbanDistance), country is the route distance minus that, under the request's settings; fewer than two points give (0, 0); no candidate containing a point after the first gives urban 0 |
| CityGeometriesLoading.LoaderCitiesGeometriesAndBoundingBoxes.constructor | src/main/java/by/aurorasoft/nominatim/service/mileage/LoaderCitiesGeometriesAndBoundingBoxes.java:18-24 | the service, the table and the flag, fixed at construction |
| CityGeometriesLoading.LoaderCitiesGeometriesAndBoundingBoxes.InjectCitiesGeometriesAndBoundingBoxes | src/main/java/by/aurorasoft/nominatim/service/mileage/LoaderCitiesGeometriesAndBoundingBoxes.java:26-33 | with the flag on, the cache becomes exactly the table's (bounding box, outline) pairs; with it off, the cache is unchanged; only the cache is written |
| CityGeometriesLoading.LoadingPreservesMileage | src/main/java/by/aurorasoft/nominatim/service/mileage/LoaderCitiesGeometriesAndBoundingBoxes.java:26-33 | a loaded cache changes no mileage: every request is answered as by querying the table |

## Left out

- The asynchronous dispatch in `start` (`runAsync` on an executor) is left out. `Start` runs the task to the end before returning, and concurrency between runs is not modelled.
- The rate limiter, HTTP and URI formatting of `NominatimService` are left out. The geocoder is a function of the call's ordinal and the coordinate, and a failed request is an error result.
- The name filter in `run` works element by element on a lazy stream, with a `HashSet` local to the run. `FindUniqueCities` applies the same first-of-each-name filter once after all batches, which yields the same list because the set is fresh per run and batches are searched in order (`DedupConcat`). Exceptions from the filter itself cannot occur.
- Doubles are exact reals, so rounding of the walk's `current + step` comparisons is not modelled. Nor is the ordering `Double.compare` gives to signed zeros and NaN in the request validator: the source rejects a left-bottom latitude 0.0 against a right-upper latitude −0.0 (`compare(0.0, -0.0)` is 1), while `RequestValidation.Validate` accepts it, reals having a single zero. Floats are modelled as a finite real or NaN, and rounding to single precision is not modelled.
- The JTS geometry library, the GeoJSON reader, PostGIS (ST_Equals, ST_Intersects), prepared geometries and the envelope are uninterpreted parameters. A line string with exactly one point, which JTS refuses, is not modelled.
- One relation, `topology.intersects`, stands for both JTS's `PreparedGeometry.intersects` on the cached bounding boxes and PostGIS `ST_Intersects` in the city query. The model assumes the two agree; `LoadedAgreesWithTable`, `CacheAndQueryAgree` and `LoadingPreservesMileage` hold only under that assumption.
- Null elements of the track list: bean validation does not descend into a null element of `List<@Valid TrackPoint>`, so such a request passes validation and then makes `MileageService` throw. The model's track is a sequence of points and cannot hold null, so `IsValidRequest` does not capture that path.
- Order of candidate outlines and of paged processes: `HashMap` iteration and SQL results have no specified order. The model uses storage order, and `CacheAndQueryAgree` shows the result depends only on which outlines are candidates. Likewise the derived `findByStatus(status, Pageable)` query has no ORDER BY, so which rows land on which page is unspecified in the source; `Repository.Page` and `EveryItemOnItsPage` slice in storage order, while `Repository.ProcessTable.FindByStatus` states only the two refusals, membership and the page-size bound, which hold for any order.
- The cache is not refreshed when discovery stores new cities. `LoadingPreservesMileage` only covers a cache that matches the table.
- `Mileage.MileageService.FindMileage` requires the track, the speed and the timeout to be present. A missing track makes the source throw before any distance is computed: in the track filter, or at `trackPoints.size()` (`MileageService.java:56` and `:86`). A missing speed or timeout makes it throw no later than the distance calculation. Neither failure is modelled.
- The track filter and distance calculator (`MileageConfig`) are parameters, so the floating-point totals of their implementation are not reproduced.
- The `@PastOrPresent` constraint needs the current time; it is a parameter `now` of `IsValidTrackPoint`.
- `MileageResponse.java` is not part of this model. The response is a pair of reals.
- Persistence: transactions and rollback, the `updated_time` trigger, failures of saves and updates, and entity mapping (`CityMapper`, `SearchingCitiesProcessMapper`) are not modelled. Stores always succeed, and ids are handed out in sequence.
- `CityService.findAll`, the controllers and the controller mappers are left out as HTTP plumbing.
- ProcessFactory.LongValue: does not model 64-bit overflow of `longValue`, because axis counts of real rectangles stay far below 2^63. Within that range its truncation toward zero is stated exactly.
- ProcessFactory.Divide: models only RoundingMode.UP at the dividend's scale, the one mode and scale the factory uses. Its value is stated as bounds on the real quotient for a non-negative dividend and a positive divisor, the only signs the factory produces for an ordered rectangle. For other signs it computes the rounding away from zero, but the contract states only the scale.
- `BigDecimal.valueOf(double)` reads the spelling `Double.toString` gives: at least one fractional digit (3.0 is "3.0", scale 1), and E-notation below 10^-3 and from 10^7 up (0.0001 is "1.0E-4", unscaled 10 at scale 5). The model does not compute that spelling; the as-written count takes the resulting decimal as its input `Decimal`, and `SpellingDecidesCount` shows that its scale changes the count.
- Discovery.StartingSearchingCitiesProcessService.constructor: requires a batch size of at least one. With 0 the source divides by zero in `findAmountOfSubAreas` (infinity, then a `long` cast); that configuration is not modelled.
- Logging and `printStackTrace` calls are not modelled.

## Findings

| source | as written | input that shows it | evidently intended | confidence | as-written member | corrected member |
|---|---|---|---|---|---|---|
| src/main/java/by/aurorasoft/nominatim/service/factory/SearchingCitiesProcessFactory.java:49-54 | The per-axis count is (end − start) / step, rounded UP at the scale of the difference, then truncated, plus 1. A quotient just below an integer is rounded up to that integer before the truncation. | Start 1.0, end 3.0, step 1.05: 2.0 / 1.05 = 1.904… rounds up to 2.0 at one decimal place, so 3 points are declared. The walk holds 2 (1.0 and 2.05). A process over that square declares 9 points while its run handles 4, and it is marked SUCCESS with 4 of 9 handled. | The number of grid points on the axis, floor((end − start) / step) + 1, so that the declared total equals the points the walk yields | not executed | ProcessFactory.AxisPointCountAsWritten, ProcessFactory.DeclaredCountExceedsGrid | ProcessFactory.AxisPointCount, ProcessFactory.Create |
