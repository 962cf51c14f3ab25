/** The check run on a request to start a city search before a process is
    created. */
module RequestValidation {
  import opened Wrappers
  import opened Domain
  import ProcessFactory

  /** The body of a start-search request. The bean constraints of the
      request (a step between 0.01 and 5) are enforced by the framework
      before this validator runs; they are stated by `StepInRange`. */
  datatype StartSearchingCitiesRequest = StartSearchingCitiesRequest(bbox: AreaCoordinate, searchStep: real)

  const NotValidAreaCoordinateMessage: string :=
    "Left bottom point's coordinates should be less than right upper point's coordinates."

  /** The step's bean constraints; a step in range is positive, as the
      process factory and the walk need. */
  predicate StepInRange(request: StartSearchingCitiesRequest): (r: bool)
    ensures r ==> request.searchStep > 0.0
  {
    0.01 <= request.searchStep <= 5.0
  }

  /** Accepts exactly the requests whose left-bottom corner is neither above
      nor right of the right-upper one, and rejects the others with the fixed
      message; the step is not looked at. */
  function Validate(request: StartSearchingCitiesRequest): (r: Result<(), string>)
    ensures r.Ok? <==> IsOrdered(request.bbox)
    ensures r.Err? ==> r.error == NotValidAreaCoordinateMessage
  {
    if IsOrdered(request.bbox) then Ok(()) else Err(NotValidAreaCoordinateMessage)
  }

  /** The step of a request never changes its verdict. */
  lemma {:induction false} StepIsIgnored(request: StartSearchingCitiesRequest, otherStep: real)
    ensures Validate(request) == Validate(request.(searchStep := otherStep))
  {
  }

  /** A request that passes validation and the step bounds describes a
      process with at least one point to handle. */
  lemma {:induction false} AcceptedRequestHasPoints(request: StartSearchingCitiesRequest)
    requires Validate(request).Ok? && StepInRange(request)
    ensures ProcessFactory.Create(request.bbox, request.searchStep).totalPoints >= 1
  {
  }

  /** The two requests of the validator's own unit tests: a one-millionth
      wide rectangle passes, one whose upper latitude is below the lower
      one is refused. */
  lemma {:induction false} Examples()
    ensures Validate(StartSearchingCitiesRequest(
      AreaCoordinate(Coordinate(52.959981, 25.903515), Coordinate(52.959982, 25.903516)), 0.01)).Ok?
    ensures Validate(StartSearchingCitiesRequest(
      AreaCoordinate(Coordinate(52.959981, 25.903515), Coordinate(52.959980, 25.903516)), 0.01))
      == Err(NotValidAreaCoordinateMessage)
  {
  }
}
