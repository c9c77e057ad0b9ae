# Kit-entry step and fax-number mask of the intake wizard, in Dafny

This project models two screens of a multi-step intake wizard.

* **The kit-entry step** (`src/components/Kits.tsx`). Each row pairs a
  provider with a shipping location and has an optional error record per
  field. The rows are backed by a pool of known street addresses, derived
  from the wizard's shared `formData`. A modal drafts a new address (city, zip code and
  line 2 typed and the state picked from a list; or street, city, state and
  zip taken from an autocomplete place, which clears line 2), checks it, appends it to the pool
  and to `formData.shippingFullLocations`, and back-fills the row that
  opened it. A submission gate rebuilds every row's errors and either
  advances to step 12 or shows one toast naming the first offending row.
* **The fax-number step** (`src/components/FaxNumber.tsx`). The
  format-on-type mask `(XXX)-XXX-XXXX` and the `validate` rule.

Layout, one module per file:

| module | file | what |
|---|---|---|
| `Wrappers` | Wrappers.dfy | `Option`, the stand-in for `null` / `undefined` |
| `FaxNumber` | FaxNumber.dfy | digit extraction, the mask, `validate` |
| `KitData` | KitData.dfy | a row, its error record, and the array edits the handlers make (`{...e, [f]: v}`, `delete`, write past the end, `splice`) |
| `LocationDraft` | LocationDraft.dfy | the address draft and its required-field check |
| `AddressPool` | AddressPool.dfy | the pool derivation, with its order and dedup properties |
| `PlaceExtraction` | PlaceExtraction.dfy | the `forEach` over autocomplete address components |
| `SubmissionGate` | SubmissionGate.dfy | the `map` loop of `handleNext` |
| `KitsStep` | KitsStep.dfy | class `Kits` (the component's state and handlers) and class `FormData` (the shared slice it touches) |

How the model stands in for the code:

* **Component state.** The component is the class `KitsStep.Kits`. Its
  fields are the component's `useState` variables. Its `formData` field
  points to a `FormData` object holding `kits`, `shippingFullLocations`,
  `locations` and `shippingLocation`. Each handler is a method whose
  `ensures` gives the whole new state.
* **Effects.** The three React effects are methods the caller invokes:
  `SyncOutbound` (lines 54-56), `SyncInbound` (59-67) and `RecomputePool`
  (69-92). Render order and effect scheduling are not modelled.
* **Outputs.** Toasts and `setStep` are returned values, not side effects.
* **Empty values.** A JavaScript field that is missing, `null` or `""` is
  `""` in the model. Every reader in the component goes through `?.`, `||`
  or `!`, and none of these tells the three apart. A `string | null`
  selection is an `Option<string>`.
* **Error records.** `kitEntryErrors` is a sequence whose length is NOT
  tied to `kitEntries`. Mounting sets it to `[{}]` whatever the number of
  rows. `SyncInbound` replaces the rows but not the errors. Writing past the
  end pads with empty records, because a hole and `{}` read the same.
  `ErrorAt` is what a row reads (`kitEntryErrors[index]?.field`). Only
  `HandleNext` guarantees equal lengths. An edit that empties a field of a
  row lying past the end of the error array pads the array up to that row,
  which can make the lengths equal too.
* **The modal.** The modal's `onClose` (line 304) only clears
  `isModalOpen`. The draft, the draft's error map and `modalTriggeredIndex`
  stay as they were. A successful confirm also keeps the draft and its
  error map.
* **Second street check.** The empty-street guard at lines 213-215 is dead
  code once the required-field check at 203-212 has passed. The model
  states this as an assertion at that point of `HandleAddNewLocation`.
* **Pool after a confirm.** A confirmed street is appended to the local
  pool. The next recompute rebuilds the pool from upstream, where the draft
  now follows the other `shippingFullLocations` records and so comes before
  the `locations` addresses. `AddressPool.RecomputeAfterConfirm` proves the
  recompute keeps the same addresses; only their order can change.
* **Fax digits.** `replace(/\D/g, "")` keeps the characters `'0'`..`'9'`.

## Model

| member | source | states |
|---|---|---|
| `FaxNumber.Digits` | src/components/FaxNumber.tsx:42 | the stripped text is no longer than the input and contains only digits |
| `FaxNumber.Cleaned` | src/components/FaxNumber.tsx:42-43 | at most ten characters: the digit string cut to its first min(10, n) digits |
| `FaxNumber.FormatPhoneNumber` | src/components/FaxNumber.tsx:41-55 | the result fits the input's maxLength of 14 (line 83) |
| `FaxNumber.FormatShape` | src/components/FaxNumber.tsx:41-55 | the result fills a prefix of the placeholder `(XXX)-XXX-XXXX` (punctuation at the mask's punctuation, a digit at every X); it ends in a digit; it is empty exactly when the input has no digit |
| `FaxNumber.Banded` | src/components/FaxNumber.tsx:45-54 | the three bands over at most ten digits: at most four characters longer than its digits, empty exactly when there are none; its mask shape is `BandedShape` |
| `FaxNumber.BandedShape` | src/components/FaxNumber.tsx:45-54 | each of the three bands (1-3, 4-6, 7-10 digits) puts "(", ")-" and "-" at the mask's positions and ends in a digit |
| `FaxNumber.FormatKeepsDigits` | src/components/FaxNumber.tsx:42-54 | the digits of the formatted text are the first min(10, n) digits of the input, in order |
| `FaxNumber.FormatIdempotent` | src/components/FaxNumber.tsx:57-60 | re-formatting formatted text (the change handler does it on every keystroke) changes nothing |
| `FaxNumber.Validate` | src/components/FaxNumber.tsx:31-35 | accepted exactly when there are ten digits; "Fax number is required." exactly when there is no digit; "Fax number must be 10 digits." otherwise |
| `FaxNumber.ValidateStripped` | src/components/FaxNumber.tsx:63-67 | validating the digit-stripped number gives the same verdict as validating the text |
| `FaxNumber.ValidateFormatted` | src/components/FaxNumber.tsx:31-60 | masked text is accepted exactly when the typed input held at least ten digits, and is "required" exactly when it held none |
| `KitData.WithField` | src/components/Kits.tsx:171 | `{...e, [field]: v}` sets that field and keeps the other one |
| `KitData.WithError` | src/components/Kits.tsx:176-186 | setting or deleting one key of an error record keeps the other key |
| `KitData.OrEmpty` | src/components/Kits.tsx:171 | `value \|\| ""` is empty exactly for null or "", and is the value otherwise |
| `KitData.ErrorAt` | src/components/Kits.tsx:399 | a slot past the end of the error array reads as no errors |
| `KitData.PadWrite` | src/components/Kits.tsx:174-182 | a write at index i makes slot i the record, lengthens the array to i+1 if needed, and leaves every other slot's reading unchanged |
| `KitData.Splice` | src/components/Kits.tsx:191-199 | `splice(i, 1)`: elements before i stay, later ones shift down by one, length drops by one; no change past the end |
| `KitData.RequiredMessage` | src/components/Kits.tsx:178-181 | the inline message of each field, never empty |
| `LocationDraft.WithField` | src/components/Kits.tsx:150-155 | the chosen draft field takes the value; every other field is unchanged |
| `LocationDraft.RequiredErrors` | src/components/Kits.tsx:202-209 | a key exactly for each of street, city, state and zip code that is empty, with that field's message; empty exactly when all four are filled |
| `AddressPool.FirstIndex` | src/components/Kits.tsx:87 | the index of a value's first occurrence (the one a `Set` keeps) |
| `AddressPool.Dedup` | src/components/Kits.tsx:87 | `Array.from(new Set(s))` has no duplicates, loses no element and invents none |
| `AddressPool.SameElements` | src/components/Kits.tsx:87 | deduplication keeps exactly the set of values |
| `AddressPool.DedupFirstSeenOrder` | src/components/Kits.tsx:87 | deduplication lists the values in the order of their first occurrence |
| `AddressPool.DropEmpty` | src/components/Kits.tsx:87-89 | the filter removes exactly the empty strings and keeps a duplicate-free list duplicate-free |
| `AddressPool.DropEmptyKeepsOrder` | src/components/Kits.tsx:87-89 | the filter keeps first-seen order |
| `AddressPool.Streets` | src/components/Kits.tsx:71-81 | one street address per record (missing counts as ""), none when the source is not an array |
| `AddressPool.Pool` | src/components/Kits.tsx:84-89 | concatenate, deduplicate, drop ""; the result has no duplicate and no "", and is no longer than the two sources together; `PoolSpec` gives its exact membership and order |
| `AddressPool.PoolSpec` | src/components/Kits.tsx:69-92 | the pool has no duplicate and no empty string, holds exactly the non-empty streets of both sources, and lists them in first-seen order with `shippingFullLocations` ahead of `locations` |
| `AddressPool.PoolMembers` | src/components/Kits.tsx:69-92 | membership in the pool, for one address |
| `AddressPool.Appended` | src/components/Kits.tsx:221-236 | the existing records followed by the draft, or the draft alone when there was no list |
| `AddressPool.StreetsAppend` | src/components/Kits.tsx:221-236 | appending the draft upstream appends its street to that source's addresses |
| `AddressPool.RecomputeAfterConfirm` | src/components/Kits.tsx:221-238 | recomputing the pool after a confirm yields the same addresses as the locally appended pool |
| `PlaceExtraction.LastTagged` | src/components/Kits.tsx:122-138 | the last component carrying a type tag (later assignments win), or none |
| `PlaceExtraction.StreetStepNumber` | src/components/Kits.tsx:123-125 | a `street_number` component restarts the street line with its own name (then its own route, if it has one) |
| `PlaceExtraction.StreetStepOther` | src/components/Kits.tsx:126-128 | any other component keeps the street line and appends " " + its name when it is a route |
| `PlaceExtraction.StreetStep` | src/components/Kits.tsx:123-128 | one loop pass extends the street line the way `Street` describes |
| `PlaceExtraction.StreetOfNumberThenRoute` | src/components/Kits.tsx:123-128 | with one street number followed by one route, the street is the number, a space, and the route |
| `PlaceExtraction.StreetAbsent` | src/components/Kits.tsx:118-128 | with neither a street number nor a route, the street is "" |
| `PlaceExtraction.ExtractAddress` | src/components/Kits.tsx:116-146 | name, identifier and line 2 are ""; street from number and routes; city, state and zip from the last `locality`, `administrative_area_level_1` and `postal_code` component, "" when absent |
| `SubmissionGate.NatToString` | src/components/Kits.tsx:275 | the row number's decimal text: digits only, no leading zero, and `DecimalValue` reads it back as the number |
| `SubmissionGate.ToastFor` | src/components/Kits.tsx:274-285 | the toast for an offending row is never empty |
| `SubmissionGate.CheckEntries` | src/components/Kits.tsx:266-289 | one record per row with a key exactly for each empty field; `hasError` exactly when some row has an empty field; the toast names the first such row (1-based), provider message first, and is "" otherwise |
| `KitsStep.InitialEntries` | src/components/Kits.tsx:35-41 | the shared rows when they form a non-empty array, else one blank row; never empty |
| `KitsStep.Kits.constructor` | src/components/Kits.tsx:27-46 | mounting: rows from `InitialEntries`, errors `[{}]` whatever the row count, empty pool, closed modal, no target row, null draft, no draft errors |
| `KitsStep.Kits.SyncOutbound` | src/components/Kits.tsx:54-56 | `formData.kits` becomes the rows |
| `KitsStep.Kits.SyncInbound` | src/components/Kits.tsx:59-67 | a non-empty shared array replaces the rows; otherwise nothing changes; the errors are never touched |
| `KitsStep.Kits.RecomputePool` | src/components/Kits.tsx:69-92 | the pool becomes the derivation from the two upstream lists and stays duplicate-free and without "" |
| `KitsStep.Kits.HandleAddressSelect` | src/components/Kits.tsx:116-148 | the draft becomes the extracted location |
| `KitsStep.Kits.HandleLocalInputChange` | src/components/Kits.tsx:150-155 | one draft field takes the value, the others stay |
| `KitsStep.Kits.HandleKitEntryChange` | src/components/Kits.tsx:157-189 | the sentinel opens the modal for the row and changes neither rows nor errors; any other value sets the field (null becomes ""), leaves the other field and rows alone, sets the field's required message when empty or removes it when not, and keeps every other record's reading |
| `KitsStep.Kits.HandleRemoveKitEntry` | src/components/Kits.tsx:191-199 | both arrays lose index i (later rows shift down); the length difference is kept when i is in range of both |
| `KitsStep.Kits.HandleAddKitEntry` | src/components/Kits.tsx:257-263 | one blank row and one `{}` appended; earlier elements unchanged |
| `KitsStep.Kits.CloseModal` | src/components/Kits.tsx:304 | only the open flag is cleared |
| `KitsStep.Kits.HandleAddNewLocation` | src/components/Kits.tsx:201-255 | a missing field sets exactly the missing fields' errors and nothing else; a street already in the pool emits "Location already exists" and changes nothing; otherwise the draft is appended upstream, `formData.shippingLocation` and the pool gain the street, the target row takes the street and loses its location error, the target is reset and the modal closes; the pool stays duplicate-free |
| `KitsStep.Kits.HandleNext` | src/components/Kits.tsx:265-299 | errors rebuilt one per row with keys exactly for empty fields; step 12 exactly when no row has an empty field; otherwise one toast naming the first offending row, provider first |

## Left out

* Rendering: the JSX, the Mantine `Modal`, `Select`, `TextInput` and
  `Button` components, `Heading` and `Footer`. They are presentational.
* The provider option mapping (src/components/Kits.tsx:109-114). It is a
  display projection of `formData.providers`.
* The back button's `setStep(10)`. It is a constant navigation call.
* The scroll-to-bottom effect and the refs
  (src/components/Kits.tsx:48-51, 96-107). They are DOM side effects.
* The Google autocomplete widget, its API key and its query options. Only
  the extraction from a list of `(types, long_name)` components is
  modelled. `place.address_components` is taken to be present.
* `showToast` and `setStep` have no presentation in the model. They are
  returned values.
* React's effect scheduling, re-render order and state batching. The
  feedback loop between `SyncOutbound` and `SyncInbound` is not modelled.
* `AppContext`, `useInputChange` and `useValidation` are not part of this
  model. The `pattern` rule at src/components/FaxNumber.tsx:27-30 is
  interpreted by `useValidation`, so only `validate` is modelled.
* A non-array but truthy `formData.shippingFullLocations` is not modelled
  (the spread at src/components/Kits.tsx:225 would throw); upstream lists
  are either an array or absent.
* The aliasing of error records (`delete` mutates a record still shared
  with the previous state). Records are values in the model.
* KitsStep.Kits.HandleLocalInputChange: the model takes the typed text of
  Address Line 1. The source stores the input's change event there
  (src/components/Kits.tsx:313-315), not its text. That object is truthy,
  so a typed but unpicked street (even a cleared one) passes the check at
  line 203 and reaches the pool, `shippingFullLocations`,
  `formData.shippingLocation` and the row. The model does not capture this;
  in the source, Address Line 2, city and zip code are typed text and the
  state is picked from a list (src/components/Kits.tsx:329-360).
* KitsStep.Kits.HandleAddNewLocation: requires that the row that opened the
  modal still exists, because the code writes `updatedEntries[index]`
  without a check. The modal can only be opened from a rendered row.
* KitsStep.Kits.HandleKitEntryChange: requires `index` to be a current row,
  because the handler is only bound to rendered rows.
