/** Turning a reverse-geocoding answer into a City. */
module ReverseMapping {
  import opened Wrappers
  import opened Domain
  import CityEntity

  /** The extra tags of an answer; either may be absent. */
  datatype ExtraTags = ExtraTags(place: Option<string>, capital: Option<string>)

  /** A reverse-geocoding answer: the place's name, its extra tags (absent
      when the geocoder sent none) and its outline as GeoJSON text. */
  datatype NominatimReverseResponse = NominatimReverseResponse(
    name: string,
    extratags: Option<ExtraTags>,
    geojson: string)

  /** The geometry library as the mapper uses it: a GeoJSON reader, which
      fails on text it cannot parse, and the envelope (bounding box) of a
      geometry. */
  datatype GeoJsonReader = GeoJsonReader(
    read: string -> Result<Geometry, string>,
    envelope: Geometry -> Geometry)

  /** No type without extra tags; otherwise the type whose capital tag is
      the answer's, NOT_DEFINED for a tag no type carries. */
  function IdentifyCityType(source: NominatimReverseResponse): (r: Option<CityEntity.Type>)
    ensures r.None? <==> source.extratags.None?
    ensures r.Some? ==>
      || CityEntity.CapitalJsonValue(r.value) == source.extratags.value.capital
      || (r.value == CityEntity.NotDefined &&
          forall t: CityEntity.Type :: CityEntity.CapitalJsonValue(t) != source.extratags.value.capital)
  {
    match source.extratags
    case None => None
    case Some(tags) => Some(CityEntity.FindByCapitalJsonValue(tags.capital))
  }

  /** A new (unsaved) city carrying the answer's name, the parsed outline,
      the outline's envelope as bounding box and the identified type; a
      parse failure of the outline is the mapper's failure. */
  function Map(reader: GeoJsonReader, source: NominatimReverseResponse): (r: Result<City, string>)
    ensures r.Ok? <==> reader.read(source.geojson).Ok?
    ensures r.Err? ==> r.error == reader.read(source.geojson).error
    ensures r.Ok? ==>
      && r.value.id.None?
      && r.value.name == source.name
      && r.value.geometry == reader.read(source.geojson).value
      && r.value.boundingBox == reader.envelope(r.value.geometry)
      && r.value.cityType == IdentifyCityType(source)
  {
    match reader.read(source.geojson)
    case Err(e) => Err(e)
    case Ok(geometry) =>
      Ok(City(None, source.name, geometry, IdentifyCityType(source), reader.envelope(geometry)))
  }

  /** Every city type survives the trip through its capital tag: an answer
      tagged with a type's capital value maps to a city of that type. */
  lemma {:induction false} TypeRoundTrip(reader: GeoJsonReader, source: NominatimReverseResponse, t: CityEntity.Type)
    requires source.extratags.Some? && source.extratags.value.capital == CityEntity.CapitalJsonValue(t)
    requires reader.read(source.geojson).Ok?
    ensures Map(reader, source).Ok? && Map(reader, source).value.cityType == Some(t)
  {
    CityEntity.TagRoundTrip(t);
  }
}
