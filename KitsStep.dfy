/**
 * The kit-entry step of the intake wizard (src/components/Kits.tsx): rows
 * pairing a provider with a shipping location, their inline errors, the
 * pool of known shipping addresses, and the modal that drafts a new
 * address and back-fills the row that asked for it.
 *
 * The React effects are methods the caller invokes (`SyncOutbound`,
 * `SyncInbound`, `RecomputePool`); toasts and step changes are returned.
 */
module KitsStep {
  import opened Wrappers
  import opened KitData
  import opened LocationDraft
  import AddressPool
  import PlaceExtraction
  import SubmissionGate

  /** The option of the shipping-location select that opens the new-address modal. */
  const Sentinel := "Ship to a Different Address (Click to Enter)"
  const DuplicateToast := "Location already exists"
  /** The wizard step `handleNext` advances to. */
  const NextStep := 12

  /** The slice of the wizard's shared `formData` that this step reads and writes. */
  class FormData {
    var kits: Option<seq<KitEntry>>
    var shippingFullLocations: Option<seq<Location>>
    var locations: Option<seq<Location>>
    var shippingLocation: Option<string>

    constructor (kits: Option<seq<KitEntry>>, shippingFullLocations: Option<seq<Location>>,
                 locations: Option<seq<Location>>, shippingLocation: Option<string>)
      ensures this.kits == kits && this.shippingFullLocations == shippingFullLocations
      ensures this.locations == locations && this.shippingLocation == shippingLocation
    {
      this.kits := kits;
      this.shippingFullLocations := shippingFullLocations;
      this.locations := locations;
      this.shippingLocation := shippingLocation;
    }
  }

  /** `formData.kits` counts only when it is a non-empty array. */
  predicate HasKits(kits: Option<seq<KitEntry>>) {
    kits.Some? && kits.value != []
  }

  /** The rows a freshly mounted step starts from: the shared rows, or one blank row. */
  function InitialEntries(kits: Option<seq<KitEntry>>): (r: seq<KitEntry>)
    ensures r != []
    ensures HasKits(kits) ==> r == kits.value
    ensures !HasKits(kits) ==> r == [BlankEntry]
  {
    if HasKits(kits) then kits.value else [BlankEntry]
  }

  predicate IsSentinel(field: KitField, value: Option<string>) {
    field == ShippingLocation && value == Some(Sentinel)
  }

  class Kits {
    const formData: FormData
    var kitEntries: seq<KitEntry>
    /** Not kept as long as `kitEntries`: a missing slot reads as no errors (`ErrorAt`). */
    var kitEntryErrors: seq<KitEntryErrors>
    /** The address pool offered by every row's shipping-location select. */
    var shippingLocation: seq<string>
    var isModalOpen: bool
    var modalTriggeredIndex: Option<nat>
    /** The new-location draft; `EmptyLocation` stands for `null`. */
    var newLocationObj: Location
    /** The draft's field errors. */
    var errors: map<LocationField, string>

    /** The pool never lists an address twice and never lists the empty string. */
    ghost predicate Valid()
      reads this
    {
      AddressPool.NoDuplicates(shippingLocation) && "" !in shippingLocation
    }

    /** Mounting the step (src/components/Kits.tsx:27-46); no effect has run yet. */
    constructor (formData: FormData)
      ensures Valid()
      ensures this.formData == formData
      ensures kitEntries == InitialEntries(formData.kits)
      ensures kitEntryErrors == [NoErrors]
      ensures shippingLocation == [] && !isModalOpen && modalTriggeredIndex == None
      ensures newLocationObj == EmptyLocation && errors == map[]
    {
      this.formData := formData;
      kitEntries := InitialEntries(formData.kits);
      kitEntryErrors := [NoErrors];
      shippingLocation := [];
      isModalOpen := false;
      modalTriggeredIndex := None;
      newLocationObj := EmptyLocation;
      errors := map[];
    }

    /** Effect on `kitEntries`: write the rows into the shared state wholesale. */
    method SyncOutbound()
      modifies formData`kits
      ensures formData.kits == Some(kitEntries)
    {
      formData.kits := Some(kitEntries);
    }

    /**
     * Effect on `formData.kits`: a non-empty shared array replaces the rows
     * wholesale; the error array is left as it was, whatever its length.
     */
    method SyncInbound()
      modifies this`kitEntries
      ensures HasKits(formData.kits) ==> kitEntries == formData.kits.value
      ensures !HasKits(formData.kits) ==> kitEntries == old(kitEntries)
    {
      if HasKits(formData.kits) {
        kitEntries := formData.kits.value;
      }
    }

    /** Effect on the two upstream address lists: recompute the pool. */
    method RecomputePool()
      modifies this`shippingLocation
      ensures Valid()
      ensures shippingLocation == AddressPool.Pool(formData.shippingFullLocations, formData.locations)
    {
      shippingLocation := AddressPool.Pool(formData.shippingFullLocations, formData.locations);
      AddressPool.PoolSpec(formData.shippingFullLocations, formData.locations);
    }

    /** `handleAddressSelect`: the draft is replaced by the one extracted from the place. */
    method HandleAddressSelect(components: seq<PlaceExtraction.AddressComponent>)
      modifies this`newLocationObj
      ensures newLocationObj.locationName == "" && newLocationObj.locationIdentifier == ""
      ensures newLocationObj.streetAddressLine2 == ""
      ensures newLocationObj.streetAddress == PlaceExtraction.Street(components)
      ensures newLocationObj.city == PlaceExtraction.LastLongName(components, "locality")
      ensures newLocationObj.state == PlaceExtraction.LastLongName(components, "administrative_area_level_1")
      ensures newLocationObj.zipCode == PlaceExtraction.LastLongName(components, "postal_code")
    {
      newLocationObj := PlaceExtraction.ExtractAddress(components);
    }

    /** `handleLocalInputChange`: one draft field takes the typed value, the others stay. */
    method HandleLocalInputChange(field: LocationField, value: string)
      modifies this`newLocationObj
      ensures Get(newLocationObj, field) == value
      ensures forall f :: f != field ==> Get(newLocationObj, f) == Get(old(newLocationObj), f)
    {
      newLocationObj := LocationDraft.WithField(newLocationObj, field, value);
    }

    /**
     * `handleKitEntryChange`. Choosing the sentinel location opens the modal
     * for this row and changes nothing else. Any other selection sets the
     * field (null becomes ""), sets or removes that field's error, and
     * leaves the other field, the other rows and the other records alone.
     */
    method HandleKitEntryChange(index: nat, field: KitField, value: Option<string>)
      requires index < |kitEntries|
      modifies this`kitEntries, this`kitEntryErrors, this`isModalOpen, this`modalTriggeredIndex
      ensures IsSentinel(field, value) ==>
        && kitEntries == old(kitEntries) && kitEntryErrors == old(kitEntryErrors)
        && isModalOpen && modalTriggeredIndex == Some(index)
      ensures !IsSentinel(field, value) ==>
        && isModalOpen == old(isModalOpen) && modalTriggeredIndex == old(modalTriggeredIndex)
        && |kitEntries| == old(|kitEntries|)
        && FieldOf(kitEntries[index], field) == OrEmpty(value)
        && FieldOf(kitEntries[index], Other(field)) == FieldOf(old(kitEntries[index]), Other(field))
        && (forall j :: 0 <= j < |kitEntries| && j != index ==> kitEntries[j] == old(kitEntries[j]))
        && ErrorOf(ErrorAt(kitEntryErrors, index), field) == (if OrEmpty(value) == "" then Some(RequiredMessage(field)) else None)
        && ErrorOf(ErrorAt(kitEntryErrors, index), Other(field)) == ErrorOf(ErrorAt(old(kitEntryErrors), index), Other(field))
        && (forall j :: j != index ==> ErrorAt(kitEntryErrors, j) == ErrorAt(old(kitEntryErrors), j))
        && |kitEntryErrors| == (if OrEmpty(value) == "" && index >= old(|kitEntryErrors|) then index + 1 else old(|kitEntryErrors|))
    {
      if IsSentinel(field, value) {
        isModalOpen := true;
        modalTriggeredIndex := Some(index);
        return;
      }
      kitEntries := kitEntries[index := KitData.WithField(kitEntries[index], field, OrEmpty(value))];
      if OrEmpty(value) == "" {
        kitEntryErrors := PadWrite(kitEntryErrors, index,
          WithError(ErrorAt(kitEntryErrors, index), field, Some(RequiredMessage(field))));
      } else if index < |kitEntryErrors| {
        kitEntryErrors := kitEntryErrors[index := WithError(kitEntryErrors[index], field, None)];
      }
    }

    /** `handleRemoveKitEntry`: `splice(index, 1)` on both arrays. */
    method HandleRemoveKitEntry(index: nat)
      modifies this`kitEntries, this`kitEntryErrors
      ensures kitEntries == Splice(old(kitEntries), index)
      ensures kitEntryErrors == Splice(old(kitEntryErrors), index)
      ensures index < old(|kitEntries|) && index < old(|kitEntryErrors|) ==>
        |kitEntries| - |kitEntryErrors| == old(|kitEntries| - |kitEntryErrors|)
    {
      kitEntries := Splice(kitEntries, index);
      kitEntryErrors := Splice(kitEntryErrors, index);
    }

    /** `handleAddKitEntry`: one blank row and one empty error record at the ends. */
    method HandleAddKitEntry()
      modifies this`kitEntries, this`kitEntryErrors
      ensures kitEntries == old(kitEntries) + [BlankEntry]
      ensures kitEntryErrors == old(kitEntryErrors) + [NoErrors]
    {
      kitEntries := kitEntries + [BlankEntry];
      kitEntryErrors := kitEntryErrors + [NoErrors];
    }

    /** The modal's `onClose`: only the open flag is cleared; the draft and the target row stay. */
    method CloseModal()
      modifies this`isModalOpen
      ensures !isModalOpen
    {
      isModalOpen := false;
    }

    /**
     * `handleAddNewLocation`, the modal's confirm button. A draft missing a
     * required field only gets its error map; a street already in the pool
     * only gets the duplicate toast. Otherwise the draft is appended upstream,
     * its street to the pool, the triggering row takes the street and loses
     * its location error, and the modal closes. The draft and its error map
     * are kept in every case.
     */
    method HandleAddNewLocation() returns (toast: Option<string>)
      requires Valid()
      requires modalTriggeredIndex.Some? ==> modalTriggeredIndex.value < |kitEntries|
      modifies this`shippingLocation, this`kitEntries, this`kitEntryErrors, this`isModalOpen,
               this`modalTriggeredIndex, this`errors, formData`shippingFullLocations, formData`shippingLocation
      ensures Valid()
      ensures newLocationObj == old(newLocationObj)
      // A required field is missing.
      ensures RequiredErrors(newLocationObj) != map[] ==>
        && toast == None && errors == RequiredErrors(newLocationObj)
        && kitEntries == old(kitEntries) && kitEntryErrors == old(kitEntryErrors)
        && shippingLocation == old(shippingLocation)
        && isModalOpen == old(isModalOpen) && modalTriggeredIndex == old(modalTriggeredIndex)
        && formData.shippingFullLocations == old(formData.shippingFullLocations)
        && formData.shippingLocation == old(formData.shippingLocation)
      // The street is already offered.
      ensures RequiredErrors(newLocationObj) == map[] && newLocationObj.streetAddress in old(shippingLocation) ==>
        && toast == Some(DuplicateToast) && errors == old(errors)
        && kitEntries == old(kitEntries) && kitEntryErrors == old(kitEntryErrors)
        && shippingLocation == old(shippingLocation)
        && isModalOpen == old(isModalOpen) && modalTriggeredIndex == old(modalTriggeredIndex)
        && formData.shippingFullLocations == old(formData.shippingFullLocations)
        && formData.shippingLocation == old(formData.shippingLocation)
      // Success.
      ensures RequiredErrors(newLocationObj) == map[] && newLocationObj.streetAddress !in old(shippingLocation) ==>
        var street := newLocationObj.streetAddress;
        && toast == None && errors == old(errors) && !isModalOpen
        && formData.shippingFullLocations == Some(AddressPool.Appended(old(formData.shippingFullLocations), newLocationObj))
        && formData.shippingLocation == Some(street)
        && shippingLocation == old(shippingLocation) + [street]
        && modalTriggeredIndex == None
        && |kitEntries| == old(|kitEntries|)
        && |kitEntryErrors| == old(|kitEntryErrors|)
        && (forall j :: 0 <= j < |kitEntries| && Some(j) != old(modalTriggeredIndex) ==> kitEntries[j] == old(kitEntries[j]))
        && (forall j: nat :: Some(j) != old(modalTriggeredIndex) ==> ErrorAt(kitEntryErrors, j) == ErrorAt(old(kitEntryErrors), j))
        && (old(modalTriggeredIndex).Some? ==>
              var i := old(modalTriggeredIndex).value;
              && kitEntries[i] == KitEntry(old(kitEntries[i]).shippingProvider, street)
              && ErrorAt(kitEntryErrors, i) == KitEntryErrors(ErrorAt(old(kitEntryErrors), i).shippingProvider, None))
    {
      var newErrors := RequiredErrors(newLocationObj);
      if newErrors != map[] {
        errors := newErrors;
        toast := None;
        return;
      }
      // The second empty-street guard of the source cannot fire once the required-field check passed.
      assert newLocationObj.streetAddress != "";
      var street := newLocationObj.streetAddress;
      if street in shippingLocation {
        toast := Some(DuplicateToast);
        return;
      }

      formData.shippingFullLocations := Some(AddressPool.Appended(formData.shippingFullLocations, newLocationObj));
      formData.shippingLocation := Some(street);

      shippingLocation := shippingLocation + [street];

      if modalTriggeredIndex.Some? {
        var i := modalTriggeredIndex.value;
        kitEntries := kitEntries[i := kitEntries[i].(shippingLocation := street)];
        if i < |kitEntryErrors| {
          kitEntryErrors := kitEntryErrors[i := kitEntryErrors[i].(shippingLocation := None)];
        }
        modalTriggeredIndex := None;
      }
      isModalOpen := false;
      toast := None;
    }

    /**
     * `handleNext`: the error array is rebuilt, one record per row; the step
     * advances to 12 exactly when no row has an empty field, and otherwise a
     * single toast names the first offending row (1-based), provider first.
     */
    method HandleNext() returns (toast: Option<string>, nextStep: Option<int>)
      modifies this`kitEntryErrors
      ensures SubmissionGate.FlagsEmptyFields(kitEntryErrors, kitEntries)
      ensures nextStep == Some(NextStep) <==> forall i :: 0 <= i < |kitEntries| ==> !SubmissionGate.HasEmptyField(kitEntries[i])
      ensures nextStep.Some? ==> nextStep == Some(NextStep)
      ensures toast.Some? <==> nextStep.None?
      ensures toast.Some? ==> exists k: nat :: SubmissionGate.IsFirstOffender(kitEntries, k)
                                             && toast.value == SubmissionGate.ToastFor(k, kitEntries[k])
    {
      var newKitEntryErrors, hasError, toastMessage := SubmissionGate.CheckEntries(kitEntries);
      kitEntryErrors := newKitEntryErrors;
      if hasError {
        toast := if toastMessage != "" then Some(toastMessage) else None;
        nextStep := None;
        return;
      }
      toast, nextStep := None, Some(NextStep);
    }
  }
}
