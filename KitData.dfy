/**
 * Values of the kit-entry screen (src/components/Kits.tsx): one kit row,
 * its optional per-field error record, and the array operations the
 * handlers apply to copies of the row and error arrays.
 */
module KitData {
  import opened Wrappers

  /** `IKitData`: the provider and the shipping location chosen on one row. */
  datatype KitEntry = KitEntry(shippingProvider: string, shippingLocation: string)

  /** The two selectable fields of a row (`keyof IKitData`). */
  datatype KitField = ShippingProvider | ShippingLocation

  /** `IKitEntryErrors`: an absent key is `None`. */
  datatype KitEntryErrors = KitEntryErrors(shippingProvider: Option<string>, shippingLocation: Option<string>)

  const BlankEntry := KitEntry("", "")
  const NoErrors := KitEntryErrors(None, None)

  const ProviderRequired := "Select the provider."
  const LocationRequired := "Select/Add the shipping location."

  /** The inline message shown under an empty field. */
  function RequiredMessage(field: KitField): (m: string)
    ensures m != ""
  {
    match field
    case ShippingProvider => ProviderRequired
    case ShippingLocation => LocationRequired
  }

  function FieldOf(e: KitEntry, field: KitField): string {
    match field
    case ShippingProvider => e.shippingProvider
    case ShippingLocation => e.shippingLocation
  }

  function ErrorOf(r: KitEntryErrors, field: KitField): Option<string> {
    match field
    case ShippingProvider => r.shippingProvider
    case ShippingLocation => r.shippingLocation
  }

  function Other(field: KitField): KitField {
    match field
    case ShippingProvider => ShippingLocation
    case ShippingLocation => ShippingProvider
  }

  /** `{ ...e, [field]: v }` */
  function WithField(e: KitEntry, field: KitField, v: string): (r: KitEntry)
    ensures FieldOf(r, field) == v
    ensures FieldOf(r, Other(field)) == FieldOf(e, Other(field))
  {
    match field
    case ShippingProvider => e.(shippingProvider := v)
    case ShippingLocation => e.(shippingLocation := v)
  }

  /** `{ ...r, [field]: msg }` when msg is Some, `delete r[field]` when it is None. */
  function WithError(r: KitEntryErrors, field: KitField, msg: Option<string>): (r': KitEntryErrors)
    ensures ErrorOf(r', field) == msg
    ensures ErrorOf(r', Other(field)) == ErrorOf(r, Other(field))
  {
    match field
    case ShippingProvider => r.(shippingProvider := msg)
    case ShippingLocation => r.(shippingLocation := msg)
  }

  /** `value || ""`: a null or empty selection becomes the empty string. */
  function OrEmpty(value: Option<string>): (s: string)
    ensures s == "" <==> value == None || value == Some("")
    ensures s != "" ==> value == Some(s)
  {
    value.GetOr("")
  }

  /**
   * `errs[i]?.…`: the error record a row reads. The error array is not kept
   * as long as the entry array, and a missing slot reads as no errors.
   */
  function ErrorAt(errs: seq<KitEntryErrors>, i: nat): (r: KitEntryErrors)
    ensures i >= |errs| ==> r == NoErrors
    ensures i < |errs| ==> r == errs[i]
  {
    if i < |errs| then errs[i] else NoErrors
  }

  /**
   * `copy[i] = rec` on a JavaScript array: writing past the end lengthens the
   * array, and the skipped slots read as no errors.
   */
  function PadWrite(errs: seq<KitEntryErrors>, i: nat, rec: KitEntryErrors): (r: seq<KitEntryErrors>)
    ensures |r| == if i < |errs| then |errs| else i + 1
    ensures ErrorAt(r, i) == rec
    ensures forall j :: 0 <= j < |r| && j != i ==> ErrorAt(r, j) == ErrorAt(errs, j)
  {
    if i < |errs| then errs[i := rec]
    else errs + seq(i - |errs|, _ => NoErrors) + [rec]
  }

  /** `copy.splice(i, 1)`: removes index i and shifts the rest down; a no-op past the end. */
  function Splice<T>(s: seq<T>, i: nat): (r: seq<T>)
    ensures i < |s| ==> |r| == |s| - 1
    ensures i < |s| ==> forall j :: 0 <= j < i ==> r[j] == s[j]
    ensures i < |s| ==> forall j :: i <= j < |r| ==> r[j] == s[j + 1]
    ensures i >= |s| ==> r == s
  {
    if i < |s| then s[..i] + s[i + 1..] else s
  }
}
