/** The settlement type stored with every city (CityEntity.Type), and how it
    is chosen from the value of the geocoder's "capital" tag. */
module CityEntity {
  import opened Wrappers

  datatype Type = Capital | Regional | NotDefined

  /** The tag value each constant is declared with; NOT_DEFINED is declared
      with null. */
  function CapitalJsonValue(t: Type): Option<string> {
    match t
    case Capital => Some("yes")
    case Regional => Some("4")
    case NotDefined => None
  }

  /** The constants in declaration order, as Type.values() returns them. */
  const Values: seq<Type> := [Capital, Regional, NotDefined]

  /** A constant of `types` whose tag equals `value` (null-safe equality),
      or nothing when none does. */
  function FindIn(types: seq<Type>, value: Option<string>): (r: Option<Type>)
    ensures r.Some? ==> r.value in types && CapitalJsonValue(r.value) == value
    ensures r.None? ==> forall t :: t in types ==> CapitalJsonValue(t) != value
  {
    if types == [] then None
    else if CapitalJsonValue(types[0]) == value then Some(types[0])
    else FindIn(types[1..], value)
  }

  /** The type whose tag equals `value`, NOT_DEFINED when there is none.
      Total: every input, null included, yields a type. */
  function FindByCapitalJsonValue(value: Option<string>): (r: Type)
    ensures CapitalJsonValue(r) == value
            || (r == NotDefined && forall t: Type :: CapitalJsonValue(t) != value)
  {
    FindIn(Values, value).GetOr(NotDefined)
  }

  /** Every type is found again from its own tag. */
  lemma {:induction false} TagRoundTrip(t: Type)
    ensures FindByCapitalJsonValue(CapitalJsonValue(t)) == t
  {
    var r := FindByCapitalJsonValue(CapitalJsonValue(t));
    assert CapitalJsonValue(r) == CapitalJsonValue(t);
    match t
    case Capital =>
    case Regional =>
    case NotDefined =>
  }

  /** "yes" is a capital, "4" a regional centre, and null (the tag of
      NOT_DEFINED itself) is not defined. */
  lemma {:induction false} KnownTags()
    ensures FindByCapitalJsonValue(Some("yes")) == Capital
    ensures FindByCapitalJsonValue(Some("4")) == Regional
    ensures FindByCapitalJsonValue(None) == NotDefined
  {
    TagRoundTrip(Capital);
    TagRoundTrip(Regional);
    TagRoundTrip(NotDefined);
  }

  /** Matching is exact: any other string, including another spelling or
      case of "yes", is not defined. */
  lemma {:induction false} OtherTagIsNotDefined(value: string)
    requires value != "yes" && value != "4"
    ensures FindByCapitalJsonValue(Some(value)) == NotDefined
  {
  }
}
