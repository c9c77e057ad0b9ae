/**
 * The new-location draft edited in the modal (`ILocationDetails`) and its
 * required-field check (src/components/Kits.tsx:150-155, 201-212).
 *
 * A field the JavaScript object lacks, holds `null`, or holds "" is the
 * empty string here: every reader in the component tests the field with
 * `?.`, `||` or `!`, which do not tell the three apart.
 */
module LocationDraft {

  datatype Location = Location(
    locationName: string,
    locationIdentifier: string,
    streetAddress: string,
    streetAddressLine2: string,
    city: string,
    state: string,
    zipCode: string)

  datatype LocationField =
    LocationName | LocationIdentifier | StreetAddress | StreetAddressLine2 | City | State | ZipCode

  /** `null`, the draft before anything is typed. */
  const EmptyLocation := Location("", "", "", "", "", "", "")

  function Get(loc: Location, f: LocationField): string {
    match f
    case LocationName => loc.locationName
    case LocationIdentifier => loc.locationIdentifier
    case StreetAddress => loc.streetAddress
    case StreetAddressLine2 => loc.streetAddressLine2
    case City => loc.city
    case State => loc.state
    case ZipCode => loc.zipCode
  }

  /** `handleLocalInputChange`: `{ ...draft, [field]: value }`. */
  function WithField(loc: Location, field: LocationField, value: string): (r: Location)
    ensures Get(r, field) == value
    ensures forall f :: f != field ==> Get(r, f) == Get(loc, f)
  {
    match field
    case LocationName => loc.(locationName := value)
    case LocationIdentifier => loc.(locationIdentifier := value)
    case StreetAddress => loc.(streetAddress := value)
    case StreetAddressLine2 => loc.(streetAddressLine2 := value)
    case City => loc.(city := value)
    case State => loc.(state := value)
    case ZipCode => loc.(zipCode := value)
  }

  /** The four fields the confirm button insists on. */
  predicate IsRequired(f: LocationField) {
    f == StreetAddress || f == City || f == State || f == ZipCode
  }

  function MissingMessage(f: LocationField): string
    requires IsRequired(f)
  {
    match f
    case StreetAddress => "Street Address is required"
    case City => "City is required"
    case State => "State is required"
    case ZipCode => "Zip Code is required"
  }

  /**
   * `newErrors` of `handleAddNewLocation`: a message for each required field
   * left empty, and a key for nothing else.
   */
  function RequiredErrors(loc: Location): (m: map<LocationField, string>)
    ensures forall f :: f in m <==> IsRequired(f) && Get(loc, f) == ""
    ensures forall f :: f in m ==> IsRequired(f) && m[f] == MissingMessage(f)
    ensures m == map[] <==> loc.streetAddress != "" && loc.city != "" && loc.state != "" && loc.zipCode != ""
  {
    var m0: map<LocationField, string> := map[];
    var m1 := if loc.streetAddress == "" then m0[StreetAddress := MissingMessage(StreetAddress)] else m0;
    var m2 := if loc.city == "" then m1[City := MissingMessage(City)] else m1;
    var m3 := if loc.state == "" then m2[State := MissingMessage(State)] else m2;
    var m4 := if loc.zipCode == "" then m3[ZipCode := MissingMessage(ZipCode)] else m3;
    assert loc.streetAddress == "" ==> StreetAddress in m4;
    m4
  }
}
