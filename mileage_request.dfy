/** The body of a mileage request: the track, the detection speed and the
    message timeout, with the bean constraints the framework checks before
    the service runs, and the getters that stand in for absent fields. */
module MileageRequestModel {
  import opened Wrappers

  /** A Java `float` as the getters return it: a finite value or the NaN
      that marks an absent coordinate. Rounding to single precision is not
      modelled. */
  datatype JavaFloat = Finite(value: real) | NaN

  /** Integer.MIN_VALUE, which the integer getters return for an absent
      field. */
  const IntMinValue: int := -0x8000_0000

  /** A Java `int`. */
  predicate IsInt32(x: int) {
    -0x8000_0000 <= x < 0x8000_0000
  }

  /** One message of a track. Every field is a nullable wrapper in the
      request; `datetime` is an instant, counted in milliseconds. */
  datatype TrackPoint = TrackPoint(
    datetime: Option<int>,
    latitude: Option<real>,
    longitude: Option<real>,
    altitude: Option<int>,
    speed: Option<int>,
    valid: Option<bool>)

  datatype MileageRequest = MileageRequest(
    trackPoints: Option<seq<TrackPoint>>,
    minDetectionSpeed: Option<int>,
    maxMessageTimeout: Option<int>)

  /** The stored latitude, or NaN when there is none. */
  function GetLatitude(p: TrackPoint): (r: JavaFloat)
    ensures r.NaN? <==> p.latitude.None?
    ensures r.Finite? ==> r.value == p.latitude.value
  {
    if p.latitude.Some? then Finite(p.latitude.value) else NaN
  }

  /** The stored longitude, or NaN when there is none. */
  function GetLongitude(p: TrackPoint): (r: JavaFloat)
    ensures r.NaN? <==> p.longitude.None?
    ensures r.Finite? ==> r.value == p.longitude.value
  {
    if p.longitude.Some? then Finite(p.longitude.value) else NaN
  }

  /** The stored altitude, or Integer.MIN_VALUE when there is none. */
  function GetAltitude(p: TrackPoint): (r: int)
    ensures p.altitude.None? ==> r == IntMinValue
    ensures p.altitude.Some? ==> r == p.altitude.value
  {
    p.altitude.GetOr(IntMinValue)
  }

  /** The stored speed, or Integer.MIN_VALUE when there is none. */
  function GetSpeed(p: TrackPoint): (r: int)
    ensures p.speed.None? ==> r == IntMinValue
    ensures p.speed.Some? ==> r == p.speed.value
  {
    p.speed.GetOr(IntMinValue)
  }

  /** The stored validity flag, or false when there is none. */
  function IsValid(p: TrackPoint): (r: bool)
    ensures r <==> p.valid == Some(true)
  {
    p.valid.GetOr(false)
  }

  /** The constraints on one track point: every field present, the instant
      not after `now`, latitude in [-90, 90], longitude in [-180, 180] and
      speed in [0, 1000]. On a valid point the getters return the stored
      values, the coordinates are finite and within their ranges, and the
      speed is not the absent-speed sentinel. */
  predicate IsValidTrackPoint(p: TrackPoint, now: int): (r: bool)
    ensures r ==> GetLatitude(p).Finite? && -90.0 <= GetLatitude(p).value <= 90.0
    ensures r ==> GetLongitude(p).Finite? && -180.0 <= GetLongitude(p).value <= 180.0
    ensures r ==> 0 <= GetSpeed(p) <= 1000 && GetSpeed(p) != IntMinValue
    ensures r ==> p.altitude.Some? && GetAltitude(p) == p.altitude.value
    ensures r ==> p.valid.Some? && IsValid(p) == p.valid.value
  {
    && p.datetime.Some? && p.datetime.value <= now
    && p.latitude.Some? && -90.0 <= p.latitude.value <= 90.0
    && p.longitude.Some? && -180.0 <= p.longitude.value <= 180.0
    && p.altitude.Some?
    && p.speed.Some? && 0 <= p.speed.value <= 1000
    && p.valid.Some?
  }

  /** The constraints on a request: at least two track points, each of them
      valid, and a detection speed and a timeout that are present and not
      negative. */
  predicate IsValidRequest(request: MileageRequest, now: int): (r: bool)
    ensures r ==> request.trackPoints.Some? && request.minDetectionSpeed.Some? && request.maxMessageTimeout.Some?
    ensures r ==> forall i :: 0 <= i < |request.trackPoints.value| ==>
      GetLatitude(request.trackPoints.value[i]).Finite? && GetLongitude(request.trackPoints.value[i]).Finite?
  {
    && request.trackPoints.Some? && |request.trackPoints.value| >= 2
    && (forall i :: 0 <= i < |request.trackPoints.value| ==> IsValidTrackPoint(request.trackPoints.value[i], now))
    && request.minDetectionSpeed.Some? && request.minDetectionSpeed.value >= 0
    && request.maxMessageTimeout.Some? && request.maxMessageTimeout.value >= 0
  }

  /** A point with no latitude, no longitude or no speed is never valid: the
      sentinels the getters return lie outside the allowed ranges. */
  lemma {:induction false} SentinelsAreInvalid(p: TrackPoint, now: int)
    requires GetLatitude(p).NaN? || GetLongitude(p).NaN? || GetSpeed(p) == IntMinValue
    ensures !IsValidTrackPoint(p, now)
  {
  }

  /** The altitude sentinel is itself a legal altitude: a point without an
      altitude and one whose altitude is Integer.MIN_VALUE read alike. */
  lemma {:induction false} AltitudeSentinelIsAmbiguous(p: TrackPoint)
    requires p.altitude.None?
    ensures GetAltitude(p) == GetAltitude(p.(altitude := Some(IntMinValue)))
    ensures IsInt32(GetAltitude(p))
  {
  }

  /** A request with fewer than two points, or a negative speed or timeout,
      is refused whatever its points are. */
  lemma {:induction false} ShortOrNegativeRequestIsInvalid(request: MileageRequest, now: int)
    requires || (request.trackPoints.Some? && |request.trackPoints.value| < 2)
             || (request.minDetectionSpeed.Some? && request.minDetectionSpeed.value < 0)
             || (request.maxMessageTimeout.Some? && request.maxMessageTimeout.value < 0)
    ensures !IsValidRequest(request, now)
  {
  }

  /** The validity of a request is the validity of each of its points:
      spoiling one point spoils the request. */
  lemma {:induction false} OneInvalidPointSpoilsRequest(request: MileageRequest, now: int, i: int)
    requires request.trackPoints.Some? && 0 <= i < |request.trackPoints.value|
    requires !IsValidTrackPoint(request.trackPoints.value[i], now)
    ensures !IsValidRequest(request, now)
  {
  }
}
