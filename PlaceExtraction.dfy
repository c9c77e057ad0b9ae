/**
 * `handleAddressSelect` (src/components/Kits.tsx:116-148): turns the
 * address components of an autocomplete place into a location draft.
 */
module PlaceExtraction {
  import opened Wrappers
  import opened LocationDraft

  /** One entry of `place.address_components`: its type tags and its `long_name`. */
  datatype AddressComponent = AddressComponent(types: seq<string>, longName: string)

  /** The index of the last component tagged t, if any. */
  function LastTagged(cs: seq<AddressComponent>, t: string): (r: Option<nat>)
    ensures r.Some? ==> r.value < |cs| && t in cs[r.value].types
    ensures r.Some? ==> forall j :: r.value < j < |cs| ==> t !in cs[j].types
    ensures r.None? ==> forall j :: 0 <= j < |cs| ==> t !in cs[j].types
  {
    if cs == [] then None
    else if t in cs[|cs| - 1].types then Some(|cs| - 1)
    else LastTagged(cs[..|cs| - 1], t)
  }

  /** The `long_name` of the last component tagged t, or "" when none is. */
  function LastLongName(cs: seq<AddressComponent>, t: string): string {
    match LastTagged(cs, t)
    case None => ""
    case Some(k) => cs[k].longName
  }

  /** " " + `long_name` for every `route` component of cs, in order. */
  function Routes(cs: seq<AddressComponent>): string {
    if cs == [] then ""
    else Routes(cs[..|cs| - 1]) + (if "route" in cs[|cs| - 1].types then " " + cs[|cs| - 1].longName else "")
  }

  /**
   * The street line: the last `street_number` name followed by every route
   * that comes at or after it (a component carrying both tags contributes
   * both); with no street number, the routes alone.
   */
  function Street(cs: seq<AddressComponent>): string {
    match LastTagged(cs, "street_number")
    case None => Routes(cs)
    case Some(k) => cs[k].longName + Routes(cs[k..])
  }

  /** Routes of one more component: its route, if any, is appended. */
  lemma RoutesSnoc(cs: seq<AddressComponent>, c: AddressComponent)
    ensures Routes(cs + [c]) == Routes(cs) + (if "route" in c.types then " " + c.longName else "")
  {
    assert (cs + [c])[..|cs|] == cs;
  }

  /** A component with a street number restarts the street line with its name. */
  lemma StreetStepNumber(cs: seq<AddressComponent>, c: AddressComponent)
    requires "street_number" in c.types
    ensures Street(cs + [c]) == c.longName + Routes([c])
  {
  }

  /** A component without a street number keeps the last one and adds its route, if any. */
  lemma StreetStepOther(cs: seq<AddressComponent>, c: AddressComponent)
    requires "street_number" !in c.types
    ensures Street(cs + [c]) == Street(cs) + (if "route" in c.types then " " + c.longName else "")
  {
    var p := cs + [c];
    assert p[..|cs|] == cs;
    assert LastTagged(p, "street_number") == LastTagged(cs, "street_number");
    match LastTagged(cs, "street_number")
    case None =>
      RoutesSnoc(cs, c);
    case Some(k) =>
      assert p[k..] == cs[k..] + [c];
      RoutesSnoc(cs[k..], c);
  }

  /** One more component extends the street line the way one loop pass does. */
  lemma StreetStep(cs: seq<AddressComponent>, i: nat)
    requires i < |cs|
    ensures var c := cs[i];
      var s1 := if "street_number" in c.types then c.longName else Street(cs[..i]);
      Street(cs[..i + 1]) == if "route" in c.types then s1 + " " + c.longName else s1
  {
    var c := cs[i];
    assert cs[..i + 1] == cs[..i] + [c];
    if "street_number" in c.types {
      StreetStepNumber(cs[..i], c);
      RoutesSnoc([], c);
      assert [] + [c] == [c];
    } else {
      StreetStepOther(cs[..i], c);
    }
  }

  /** The typical Google result: one street number, then one route. */
  lemma StreetOfNumberThenRoute(cs: seq<AddressComponent>, a: nat, b: nat)
    requires a < b < |cs|
    requires forall j :: 0 <= j < |cs| ==> ("street_number" in cs[j].types <==> j == a)
    requires forall j :: 0 <= j < |cs| ==> ("route" in cs[j].types <==> j == b)
    ensures Street(cs) == cs[a].longName + " " + cs[b].longName
  {
    RoutesSingle(cs[a..], b - a);
  }

  /** Routes of a list in which only index b is a route. */
  lemma {:induction false} RoutesSingle(cs: seq<AddressComponent>, b: nat)
    requires b < |cs|
    requires forall j :: 0 <= j < |cs| ==> ("route" in cs[j].types <==> j == b)
    ensures Routes(cs) == " " + cs[b].longName
  {
    var init := cs[..|cs| - 1];
    if b == |cs| - 1 {
      NoRoutes(init);
    } else {
      RoutesSingle(init, b);
    }
  }

  lemma {:induction false} NoRoutes(cs: seq<AddressComponent>)
    requires forall j :: 0 <= j < |cs| ==> "route" !in cs[j].types
    ensures Routes(cs) == ""
  {
    if cs != [] {
      NoRoutes(cs[..|cs| - 1]);
    }
  }

  /** Without any street number or route component the street line is empty. */
  lemma StreetAbsent(cs: seq<AddressComponent>)
    requires forall j :: 0 <= j < |cs| ==> "street_number" !in cs[j].types && "route" !in cs[j].types
    ensures Street(cs) == ""
  {
    NoRoutes(cs);
  }

  /**
   * The `forEach` of `handleAddressSelect`: a complete draft whose name and
   * identifier are empty, whose street line is built from the street
   * number and routes, and whose city, state and zip code are the
   * `long_name` of the last `locality`, `administrative_area_level_1` and
   * `postal_code` component, "" when there is none.
   */
  method ExtractAddress(cs: seq<AddressComponent>) returns (loc: Location)
    ensures loc.locationName == "" && loc.locationIdentifier == "" && loc.streetAddressLine2 == ""
    ensures loc.streetAddress == Street(cs)
    ensures loc.city == LastLongName(cs, "locality")
    ensures loc.state == LastLongName(cs, "administrative_area_level_1")
    ensures loc.zipCode == LastLongName(cs, "postal_code")
  {
    var streetAddress, city, state, zipCode := "", "", "", "";
    var i := 0;
    while i < |cs|
      invariant 0 <= i <= |cs|
      invariant streetAddress == Street(cs[..i])
      invariant city == LastLongName(cs[..i], "locality")
      invariant state == LastLongName(cs[..i], "administrative_area_level_1")
      invariant zipCode == LastLongName(cs[..i], "postal_code")
    {
      var c := cs[i];
      StreetStep(cs, i);
      assert cs[..i + 1][..i] == cs[..i];
      if "street_number" in c.types {
        streetAddress := c.longName;
      }
      if "route" in c.types {
        streetAddress := streetAddress + " " + c.longName;
      }
      if "locality" in c.types {
        city := c.longName;
      }
      if "administrative_area_level_1" in c.types {
        state := c.longName;
      }
      if "postal_code" in c.types {
        zipCode := c.longName;
      }
      i := i + 1;
    }
    assert cs[..i] == cs;
    loc := Location("", "", streetAddress, "", city, state, zipCode);
  }
}
