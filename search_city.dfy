/** Asking the geocoder about a list of coordinates and keeping the answers
    that are cities or towns. */
module SearchCity {
  import opened Wrappers
  import opened Domain
  import opened ReverseMapping

  /** The reverse geocoder. Its answer to the call with ordinal `n` (calls
      are numbered from 0 over the life of the service) for a coordinate;
      a failed request is an error. */
  type Geocoder = (nat, Coordinate) -> Result<NominatimReverseResponse, string>

  /** The place tag, as a whole, is "city" or "town". A city answer always
      carries extra tags, so the mapper gives it a type. */
  predicate IsCity(response: NominatimReverseResponse): (r: bool)
    ensures r ==> IdentifyCityType(response).Some?
  {
    && response.extratags.Some?
    && response.extratags.value.place.Some?
    && (response.extratags.value.place.value == "city" || response.extratags.value.place.value == "town")
  }

  /** What one coordinate contributes when it is asked on call `n`: its city
      when the answer is a city that maps, nothing otherwise. */
  function CityAt(geocoder: Geocoder, reader: GeoJsonReader, n: nat, c: Coordinate): Option<City> {
    match geocoder(n, c)
    case Err(_) => None
    case Ok(response) =>
      if IsCity(response) && Map(reader, response).Ok? then Some(Map(reader, response).value) else None
  }

  /** Asking about the coordinate on call `n` does not fail: the geocoder
      answers and, for a city, the outline parses. */
  predicate Answered(geocoder: Geocoder, reader: GeoJsonReader, n: nat, c: Coordinate) {
    && geocoder(n, c).Ok?
    && (IsCity(geocoder(n, c).value) ==> Map(reader, geocoder(n, c).value).Ok?)
  }

  /** Every coordinate is answered, the i-th on call first + i. */
  predicate AllAnswered(geocoder: Geocoder, reader: GeoJsonReader, first: nat, coordinates: seq<Coordinate>) {
    forall i :: 0 <= i < |coordinates| ==> Answered(geocoder, reader, first + i, coordinates[i])
  }

  /** The present values of a sequence of options, in order. */
  function Present<T>(xs: seq<Option<T>>): (r: seq<T>)
    ensures |r| <= |xs|
  {
    if xs == [] then []
    else if xs[0].Some? then [xs[0].value] + Present(xs[1..])
    else Present(xs[1..])
  }

  /** The contributions of coordinates asked on calls first, first+1, ... */
  function Contributions(geocoder: Geocoder, reader: GeoJsonReader, first: nat, coordinates: seq<Coordinate>): (r: seq<Option<City>>)
    ensures |r| == |coordinates|
    ensures forall i {:trigger r[i]} :: 0 <= i < |r| ==> r[i] == CityAt(geocoder, reader, first + i, coordinates[i])
  {
    seq(|coordinates|, i requires 0 <= i < |coordinates| => CityAt(geocoder, reader, first + i, coordinates[i]))
  }

  /** Asks about each coordinate in turn, the i-th on call first + i, keeps
      the cities and towns and maps them; the first failure ends the search
      and is its result. */
  function FindByCoordinates(geocoder: Geocoder, reader: GeoJsonReader, first: nat, coordinates: seq<Coordinate>)
    : (r: Result<seq<City>, string>)
    ensures r.Ok? ==> |r.value| <= |coordinates|
    decreases |coordinates|
  {
    if coordinates == [] then
      Ok([])
    else
      match geocoder(first, coordinates[0])
      case Err(e) => Err(e)
      case Ok(response) =>
        if !IsCity(response) then
          FindByCoordinates(geocoder, reader, first + 1, coordinates[1..])
        else
          match Map(reader, response)
          case Err(e) => Err(e)
          case Ok(city) =>
            match FindByCoordinates(geocoder, reader, first + 1, coordinates[1..])
            case Err(e) => Err(e)
            case Ok(cities) => Ok([city] + cities)
  }

  /** The search succeeds exactly when every coordinate is answered, and
      then yields exactly the cities the coordinates contribute, in order. */
  lemma {:induction false} FindByCoordinatesMeaning(geocoder: Geocoder, reader: GeoJsonReader, first: nat,
                                                    coordinates: seq<Coordinate>)
    ensures var r := FindByCoordinates(geocoder, reader, first, coordinates);
            && (r.Ok? <==> AllAnswered(geocoder, reader, first, coordinates))
            && (r.Ok? ==> r.value == Present(Contributions(geocoder, reader, first, coordinates)))
    decreases |coordinates|
  {
    if coordinates != [] {
      var rest := FindByCoordinates(geocoder, reader, first + 1, coordinates[1..]);
      FindByCoordinatesMeaning(geocoder, reader, first + 1, coordinates[1..]);
      Unfold(geocoder, reader, first, coordinates);
      var r := FindByCoordinates(geocoder, reader, first, coordinates);
      var here := CityAt(geocoder, reader, first, coordinates[0]);
      if !Answered(geocoder, reader, first, coordinates[0]) {
        assert r.Err?;
      } else if here.None? {
        assert r == rest;
      } else {
        assert r == if rest.Ok? then Ok([here.value] + rest.value) else rest;
      }
    }
  }

  /** The first coordinate is asked on call `first`, the rest from call
      first + 1 on. */
  lemma {:induction false} Unfold(geocoder: Geocoder, reader: GeoJsonReader, first: nat, coordinates: seq<Coordinate>)
    requires coordinates != []
    ensures Contributions(geocoder, reader, first, coordinates)
      == [CityAt(geocoder, reader, first, coordinates[0])] + Contributions(geocoder, reader, first + 1, coordinates[1..])
    ensures AllAnswered(geocoder, reader, first, coordinates)
      <==> Answered(geocoder, reader, first, coordinates[0]) && AllAnswered(geocoder, reader, first + 1, coordinates[1..])
  {
    UnfoldContributions(geocoder, reader, first, coordinates);
    UnfoldAnswered(geocoder, reader, first, coordinates);
  }

  lemma {:induction false} UnfoldContributions(geocoder: Geocoder, reader: GeoJsonReader, first: nat, coordinates: seq<Coordinate>)
    requires coordinates != []
    ensures Contributions(geocoder, reader, first, coordinates)
      == [CityAt(geocoder, reader, first, coordinates[0])] + Contributions(geocoder, reader, first + 1, coordinates[1..])
  {
    var whole := Contributions(geocoder, reader, first, coordinates);
    var tail := Contributions(geocoder, reader, first + 1, coordinates[1..]);
    var parts := [CityAt(geocoder, reader, first, coordinates[0])] + tail;
    forall i | 0 <= i < |whole| ensures whole[i] == parts[i] {
      if i > 0 {
        assert parts[i] == tail[i - 1];
        assert coordinates[1..][i - 1] == coordinates[i];
        assert first + 1 + (i - 1) == first + i;
      }
    }
    assert whole == parts;
  }

  lemma {:induction false} UnfoldAnswered(geocoder: Geocoder, reader: GeoJsonReader, first: nat, coordinates: seq<Coordinate>)
    requires coordinates != []
    ensures AllAnswered(geocoder, reader, first, coordinates)
      <==> Answered(geocoder, reader, first, coordinates[0]) && AllAnswered(geocoder, reader, first + 1, coordinates[1..])
  {
    if AllAnswered(geocoder, reader, first + 1, coordinates[1..]) {
      forall i | 1 <= i < |coordinates| ensures Answered(geocoder, reader, first + i, coordinates[i]) {
        assert coordinates[i] == coordinates[1..][i - 1];
      }
    }
  }

  /** Searching two lists one after the other, the second's calls numbered
      after the first's, gives what searching their concatenation gives:
      the cities of both in order, or the first failure. */
  lemma {:induction false} FindByConcatenation(geocoder: Geocoder, reader: GeoJsonReader, first: nat,
                                               xs: seq<Coordinate>, ys: seq<Coordinate>)
    ensures var whole := FindByCoordinates(geocoder, reader, first, xs + ys);
            var left := FindByCoordinates(geocoder, reader, first, xs);
            var right := FindByCoordinates(geocoder, reader, first + |xs|, ys);
            && (whole.Ok? <==> left.Ok? && right.Ok?)
            && (whole.Ok? ==> whole.value == left.value + right.value)
  {
    ConcatenationSucceeds(geocoder, reader, first, xs, ys);
    if FindByCoordinates(geocoder, reader, first, xs + ys).Ok? {
      ConcatenationValue(geocoder, reader, first, xs, ys);
    }
  }

  lemma {:induction false} ConcatenationSucceeds(geocoder: Geocoder, reader: GeoJsonReader, first: nat, xs: seq<Coordinate>, ys: seq<Coordinate>)
    ensures FindByCoordinates(geocoder, reader, first, xs + ys).Ok?
            <==> FindByCoordinates(geocoder, reader, first, xs).Ok? && FindByCoordinates(geocoder, reader, first + |xs|, ys).Ok?
  {
    SucceedsWhenAllAnswered(geocoder, reader, first, xs + ys);
    SucceedsWhenAllAnswered(geocoder, reader, first, xs);
    SucceedsWhenAllAnswered(geocoder, reader, first + |xs|, ys);
    AllAnsweredConcat(geocoder, reader, first, xs, ys);
  }

  lemma {:induction false} ConcatenationValue(geocoder: Geocoder, reader: GeoJsonReader, first: nat, xs: seq<Coordinate>, ys: seq<Coordinate>)
    requires FindByCoordinates(geocoder, reader, first, xs + ys).Ok?
    requires FindByCoordinates(geocoder, reader, first, xs).Ok? && FindByCoordinates(geocoder, reader, first + |xs|, ys).Ok?
    ensures FindByCoordinates(geocoder, reader, first, xs + ys).value
            == FindByCoordinates(geocoder, reader, first, xs).value + FindByCoordinates(geocoder, reader, first + |xs|, ys).value
  {
    var l := Contributions(geocoder, reader, first, xs);
    var r := Contributions(geocoder, reader, first + |xs|, ys);
    FindByCoordinatesMeaning(geocoder, reader, first, xs + ys);
    FindByCoordinatesMeaning(geocoder, reader, first, xs);
    FindByCoordinatesMeaning(geocoder, reader, first + |xs|, ys);
    ContributionsConcat(geocoder, reader, first, xs, ys);
    PresentConcat(l, r);
  }

  lemma {:induction false} SucceedsWhenAllAnswered(geocoder: Geocoder, reader: GeoJsonReader, first: nat, coordinates: seq<Coordinate>)
    ensures FindByCoordinates(geocoder, reader, first, coordinates).Ok? <==> AllAnswered(geocoder, reader, first, coordinates)
  {
    FindByCoordinatesMeaning(geocoder, reader, first, coordinates);
  }

  lemma {:induction false} ContributionsConcat(geocoder: Geocoder, reader: GeoJsonReader, first: nat, xs: seq<Coordinate>, ys: seq<Coordinate>)
    ensures Contributions(geocoder, reader, first, xs + ys)
      == Contributions(geocoder, reader, first, xs) + Contributions(geocoder, reader, first + |xs|, ys)
  {
    var whole := Contributions(geocoder, reader, first, xs + ys);
    var parts := Contributions(geocoder, reader, first, xs) + Contributions(geocoder, reader, first + |xs|, ys);
    forall i | 0 <= i < |whole| ensures whole[i] == parts[i] {
      if i >= |xs| {
        assert (xs + ys)[i] == ys[i - |xs|];
        assert first + i == first + |xs| + (i - |xs|);
      }
    }
  }

  lemma {:induction false} AllAnsweredConcat(geocoder: Geocoder, reader: GeoJsonReader, first: nat, xs: seq<Coordinate>, ys: seq<Coordinate>)
    ensures AllAnswered(geocoder, reader, first, xs + ys)
            <==> AllAnswered(geocoder, reader, first, xs) && AllAnswered(geocoder, reader, first + |xs|, ys)
  {
    if AllAnswered(geocoder, reader, first, xs + ys) {
      forall i | 0 <= i < |xs| ensures Answered(geocoder, reader, first + i, xs[i]) {
        assert (xs + ys)[i] == xs[i];
      }
      forall i | 0 <= i < |ys| ensures Answered(geocoder, reader, first + |xs| + i, ys[i]) {
        assert (xs + ys)[|xs| + i] == ys[i];
      }
    }
    if AllAnswered(geocoder, reader, first, xs) && AllAnswered(geocoder, reader, first + |xs|, ys) {
      forall i | 0 <= i < |xs + ys| ensures Answered(geocoder, reader, first + i, (xs + ys)[i]) {
        if i >= |xs| {
          assert Answered(geocoder, reader, first + |xs| + (i - |xs|), ys[i - |xs|]);
        }
      }
    }
  }

  lemma {:induction false} PresentConcat<T>(xs: seq<Option<T>>, ys: seq<Option<T>>)
    ensures Present(xs + ys) == Present(xs) + Present(ys)
    decreases |xs|
  {
    if xs == [] {
      assert xs + ys == ys;
    } else {
      assert (xs + ys)[1..] == xs[1..] + ys;
      PresentConcat(xs[1..], ys);
    }
  }

  /** The position of the first coordinate that is not answered, or the
      number of coordinates when all are. */
  function FirstUnanswered(geocoder: Geocoder, reader: GeoJsonReader, first: nat, coordinates: seq<Coordinate>)
    : (i: nat)
    ensures i <= |coordinates|
    decreases |coordinates|
  {
    if coordinates == [] then 0
    else if !Answered(geocoder, reader, first, coordinates[0]) then 0
    else FirstUnanswered(geocoder, reader, first + 1, coordinates[1..]) + 1
  }

  /** Every coordinate before the first unanswered position is answered,
      and the one at it, if any, is not. */
  lemma {:induction false} FirstUnansweredMeaning(geocoder: Geocoder, reader: GeoJsonReader, first: nat, coordinates: seq<Coordinate>)
    ensures var i := FirstUnanswered(geocoder, reader, first, coordinates);
            && (forall j :: 0 <= j < i ==> Answered(geocoder, reader, first + j, coordinates[j]))
            && (i < |coordinates| ==> !Answered(geocoder, reader, first + i, coordinates[i]))
    decreases |coordinates|
  {
    if coordinates != [] && Answered(geocoder, reader, first, coordinates[0]) {
      var tail := coordinates[1..];
      FirstUnansweredMeaning(geocoder, reader, first + 1, tail);
      var i := FirstUnanswered(geocoder, reader, first + 1, tail);
      forall j | 1 <= j < i + 1 ensures Answered(geocoder, reader, first + j, coordinates[j]) {
        assert coordinates[j] == tail[j - 1];
        assert Answered(geocoder, reader, first + 1 + (j - 1), tail[j - 1]);
      }
      if i < |tail| {
        assert coordinates[i + 1] == tail[i];
      }
    }
  }

  /** A position before which every coordinate is answered and at which one
      is not is the first unanswered position. */
  lemma {:induction false} FirstUnansweredUnique(geocoder: Geocoder, reader: GeoJsonReader, first: nat, coordinates: seq<Coordinate>, i: nat)
    requires i <= |coordinates|
    requires forall j :: 0 <= j < i ==> Answered(geocoder, reader, first + j, coordinates[j])
    requires i < |coordinates| ==> !Answered(geocoder, reader, first + i, coordinates[i])
    ensures FirstUnanswered(geocoder, reader, first, coordinates) == i
    decreases |coordinates|
  {
    if i > 0 {
      var tail := coordinates[1..];
      assert Answered(geocoder, reader, first + 0, coordinates[0]);
      forall j | 0 <= j < i - 1 ensures Answered(geocoder, reader, first + 1 + j, tail[j]) {
        assert tail[j] == coordinates[j + 1];
        assert Answered(geocoder, reader, first + (j + 1), coordinates[j + 1]);
      }
      if i - 1 < |tail| {
        assert tail[i - 1] == coordinates[i];
      }
      FirstUnansweredUnique(geocoder, reader, first + 1, tail, i - 1);
    } else if coordinates != [] {
      assert !Answered(geocoder, reader, first + 0, coordinates[0]);
    }
  }

  /** How many geocoder calls a search makes: up to and including the
      first unanswered coordinate, or one per coordinate when all are
      answered. */
  function RequestsMade(geocoder: Geocoder, reader: GeoJsonReader, first: nat, coordinates: seq<Coordinate>)
    : (n: nat)
    ensures n <= |coordinates|
  {
    var f := FirstUnanswered(geocoder, reader, first, coordinates);
    if f < |coordinates| then f + 1 else |coordinates|
  }

  /** A successful search asks about every coordinate once; a failed one
      stops right after the first unanswered coordinate. */
  lemma {:induction false} RequestsMadeMeaning(geocoder: Geocoder, reader: GeoJsonReader, first: nat, coordinates: seq<Coordinate>)
    ensures RequestsMade(geocoder, reader, first, coordinates)
            == if FindByCoordinates(geocoder, reader, first, coordinates).Ok? then |coordinates|
               else FirstUnanswered(geocoder, reader, first, coordinates) + 1
  {
    SearchFailsAtFirstUnanswered(geocoder, reader, first, coordinates);
  }

  /** The search succeeds exactly when no coordinate is unanswered. */
  lemma {:induction false} SearchFailsAtFirstUnanswered(geocoder: Geocoder, reader: GeoJsonReader, first: nat, coordinates: seq<Coordinate>)
    ensures FindByCoordinates(geocoder, reader, first, coordinates).Ok?
            <==> FirstUnanswered(geocoder, reader, first, coordinates) == |coordinates|
  {
    FindByCoordinatesMeaning(geocoder, reader, first, coordinates);
    FirstUnansweredMeaning(geocoder, reader, first, coordinates);
  }

  /** When everything before a list is answered, the first failure in the
      list is the first failure of the whole, whatever follows. */
  lemma {:induction false} FirstUnansweredAfterPrefix(geocoder: Geocoder, reader: GeoJsonReader, first: nat,
                                   prefix: seq<Coordinate>, xs: seq<Coordinate>, rest: seq<Coordinate>)
    requires FirstUnanswered(geocoder, reader, first, prefix) == |prefix|
    requires FirstUnanswered(geocoder, reader, first + |prefix|, xs) < |xs|
    ensures FirstUnanswered(geocoder, reader, first, prefix + xs + rest)
            == |prefix| + FirstUnanswered(geocoder, reader, first + |prefix|, xs)
  {
    var whole := prefix + xs + rest;
    var f := FirstUnanswered(geocoder, reader, first + |prefix|, xs);
    FirstUnansweredMeaning(geocoder, reader, first, prefix);
    FirstUnansweredMeaning(geocoder, reader, first + |prefix|, xs);
    forall j | 0 <= j < |prefix| ensures Answered(geocoder, reader, first + j, whole[j]) {
      assert whole[j] == prefix[j];
    }
    forall j | |prefix| <= j < |prefix| + f ensures Answered(geocoder, reader, first + j, whole[j]) {
      assert whole[j] == xs[j - |prefix|];
      assert Answered(geocoder, reader, first + |prefix| + (j - |prefix|), xs[j - |prefix|]);
    }
    assert whole[|prefix| + f] == xs[f];
    FirstUnansweredUnique(geocoder, reader, first, whole, |prefix| + f);
  }

  /** Answers that are not cities or towns, or no coordinates at all, give
      no cities. */
  lemma {:induction false} NoCityNoResult(geocoder: Geocoder, reader: GeoJsonReader, first: nat, coordinates: seq<Coordinate>)
    requires forall i :: 0 <= i < |coordinates| ==>
      geocoder(first + i, coordinates[i]).Ok? && !IsCity(geocoder(first + i, coordinates[i]).value)
    ensures FindByCoordinates(geocoder, reader, first, coordinates) == Ok([])
    decreases |coordinates|
  {
    if coordinates != [] {
      forall i | 0 <= i < |coordinates| - 1
        ensures geocoder(first + 1 + i, coordinates[1..][i]).Ok? && !IsCity(geocoder(first + 1 + i, coordinates[1..][i]).value)
      {
        assert coordinates[1..][i] == coordinates[i + 1];
      }
      NoCityNoResult(geocoder, reader, first + 1, coordinates[1..]);
    }
  }

  /** The place tag must be exactly "city" or "town": a longer word or
      another case does not match. */
  lemma {:induction false} PlaceExamples(name: string, geojson: string)
    ensures IsCity(NominatimReverseResponse(name, Some(ExtraTags(Some("city"), None)), geojson))
    ensures IsCity(NominatimReverseResponse(name, Some(ExtraTags(Some("town"), Some("yes"))), geojson))
    ensures !IsCity(NominatimReverseResponse(name, Some(ExtraTags(Some("village"), None)), geojson))
    ensures !IsCity(NominatimReverseResponse(name, Some(ExtraTags(Some("cityscape"), None)), geojson))
    ensures !IsCity(NominatimReverseResponse(name, Some(ExtraTags(Some("City"), None)), geojson))
    ensures !IsCity(NominatimReverseResponse(name, Some(ExtraTags(None, None)), geojson))
    ensures !IsCity(NominatimReverseResponse(name, None, geojson))
  {
  }
}
