/**
 * The check run by `handleNext` (src/components/Kits.tsx:265-299): an
 * error record per row, whether any row blocks the step, and the one toast
 * naming the first offending row.
 */
module SubmissionGate {
  import opened Wrappers
  import opened KitData

  /** The number a string of decimal digits denotes, most significant digit first. */
  function DecimalValue(s: string): nat
    requires forall i :: 0 <= i < |s| ==> '0' <= s[i] <= '9'
  {
    if s == [] then 0
    else DecimalValue(s[..|s| - 1]) * 10 + (s[|s| - 1] as int - '0' as int)
  }

  /**
   * The decimal text of n, as a template literal renders it: digits only,
   * no leading zero, and reading it back gives n.
   */
  function NatToString(n: nat): (s: string)
    ensures |s| >= 1
    ensures forall i :: 0 <= i < |s| ==> '0' <= s[i] <= '9'
    ensures |s| > 1 ==> s[0] != '0'
    ensures DecimalValue(s) == n
  {
    var d := ['0' + (n % 10) as char];
    if n < 10 then d
    else
      var prefix := NatToString(n / 10);
      assert (prefix + d)[..|prefix + d| - 1] == prefix;
      prefix + d
  }

  predicate HasEmptyField(e: KitEntry) {
    e.shippingProvider == "" || e.shippingLocation == ""
  }

  /** The toast for the offending row at 0-based index k; row numbers are 1-based. */
  function ToastFor(k: nat, e: KitEntry): (m: string)
    ensures m != ""
  {
    if e.shippingProvider == "" then "Select a provider for Entry " + NatToString(k + 1)
    else "Select/Add the shipping location for Entry " + NatToString(k + 1)
  }

  /** One error record per row, with a key exactly for each empty field. */
  predicate FlagsEmptyFields(errs: seq<KitEntryErrors>, entries: seq<KitEntry>) {
    && |errs| == |entries|
    && (forall i :: 0 <= i < |entries| ==>
          errs[i].shippingProvider == (if entries[i].shippingProvider == "" then Some(ProviderRequired) else None))
    && (forall i :: 0 <= i < |entries| ==>
          errs[i].shippingLocation == (if entries[i].shippingLocation == "" then Some(LocationRequired) else None))
  }

  /** Row k is the first row with an empty field. */
  predicate IsFirstOffender(entries: seq<KitEntry>, k: nat) {
    k < |entries| && HasEmptyField(entries[k]) && forall j :: 0 <= j < k ==> !HasEmptyField(entries[j])
  }

  /**
   * The `kitEntries.map` of `handleNext`: one record per row with a key
   * exactly for each empty field; `hasError` exactly when some row has an
   * empty field; the toast text of the first such row, preferring the
   * provider message, and "" when there is none.
   */
  method CheckEntries(entries: seq<KitEntry>) returns (errs: seq<KitEntryErrors>, hasError: bool, toastMessage: string)
    ensures FlagsEmptyFields(errs, entries)
    ensures hasError <==> exists i :: 0 <= i < |entries| && HasEmptyField(entries[i])
    ensures !hasError ==> toastMessage == ""
    ensures hasError ==> exists k: nat :: IsFirstOffender(entries, k) && toastMessage == ToastFor(k, entries[k])
  {
    errs, hasError, toastMessage := [], false, "";
    var index := 0;
    while index < |entries|
      invariant 0 <= index <= |entries|
      invariant |errs| == index
      invariant forall i :: 0 <= i < index ==>
        errs[i].shippingProvider == (if entries[i].shippingProvider == "" then Some(ProviderRequired) else None)
      invariant forall i :: 0 <= i < index ==>
        errs[i].shippingLocation == (if entries[i].shippingLocation == "" then Some(LocationRequired) else None)
      invariant hasError <==> exists i :: 0 <= i < index && HasEmptyField(entries[i])
      invariant hasError <==> toastMessage != ""
      invariant hasError ==> exists k: nat :: k < index && IsFirstOffender(entries, k) && toastMessage == ToastFor(k, entries[k])
    {
      var entry := entries[index];
      var entryError := NoErrors;
      if !hasError && HasEmptyField(entry) {
        assert IsFirstOffender(entries, index);
      }
      if entry.shippingProvider == "" {
        entryError := entryError.(shippingProvider := Some(ProviderRequired));
        if toastMessage == "" {
          toastMessage := "Select a provider for Entry " + NatToString(index + 1);
        }
        hasError := true;
      }
      if entry.shippingLocation == "" {
        entryError := entryError.(shippingLocation := Some(LocationRequired));
        if toastMessage == "" {
          toastMessage := "Select/Add the shipping location for Entry " + NatToString(index + 1);
        }
        hasError := true;
      }
      errs := errs + [entryError];
      index := index + 1;
    }
  }

  /** A blocked submission (provider missing on row 1, location on row 2) and a passing one. */
  method GateScenarios() {
    var blocked := [KitEntry("", "X"), KitEntry("Y", "")];
    var errs, hasError, toast := CheckEntries(blocked);
    assert HasEmptyField(blocked[0]);
    assert hasError;
    assert errs[0] == KitEntryErrors(Some(ProviderRequired), None);
    assert errs[1] == KitEntryErrors(None, Some(LocationRequired));
    assert forall k: nat :: IsFirstOffender(blocked, k) ==> k == 0;
    assert NatToString(1) == "1";
    assert toast == "Select a provider for Entry 1";

    var passing := [KitEntry("Y", "X")];
    errs, hasError, toast := CheckEntries(passing);
    assert !hasError && toast == "" && errs == [NoErrors];
  }
}
