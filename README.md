# Property finder — a Dafny model

A model of the core of a small real-estate catalogue web application,
written in React. The catalogue lists properties to rent or buy. A map or
list view shows them, and a form lets the user add a listing. The model
covers four parts of that core:

- **The add/edit form** (`property_form.dfy`, module `PropertyForm`):
  - the form state, sixteen text fields;
  - the field update;
  - the address search, which fills in the coordinates from the geocoder's first match;
  - the submission. It checks the required fields, looks up the address when a coordinate is missing, rejects zero or NaN coordinates, and coerces the texts into a record: numbers, the comma-separated amenities, and the floor kept only for apartments. It then clears the form.

  The component is a class `Form` whose `formData` field the handlers
  replace. `SubmitForm` is the function that specifies the submission.
- **The list view's derived data** (`list_view.dfy`, module `ListView`):
  - the one-axis filter over transaction type and property type;
  - the sort of a copy by price, area or name;
  - the empty-state condition.
- **The catalog controller** (`app.dfy`, module `App`), a class `Catalog`
  whose fields are the React state. It covers:
  - the startup load: backend data, or seeding an empty backend from the bundled dataset, or falling back to that dataset with an error;
  - adding and deleting a record;
  - the view and form toggles;
  - what the main panel shows.
- **The marker colours** (`color_utils.dfy`, module `ColorUtils`): the
  price mapped to an HSL colour from green to red, in a strong and a pale
  variant.

Supporting modules:

- `wrappers.dfy`: `Option`, where `None` stands for NaN, and `Nullable`, where `Null` stands for `null`.
- `sequences.dfy`: a generic filter and a stable insertion sort, with their laws.
- `js_strings.dfy`: the JavaScript built-ins the form uses. These are `trim` (with the full ECMAScript white-space set), `split(',')`, `join`, `parseInt` and `parseFloat`.
- `property_record.dfy`: the record datatypes and the fixed category values (`mieszkanie`, `dom`, `wynajem`, `sprzedaż`, `PLN`).

## How the environment is represented

- **Backend and geocoder.** Asynchronous calls to the backend and to the geocoder become parameters holding their answers:
  - `GeocodeAnswer`: a first match, no match, or a failed request;
  - `ReadAnswer`: the documents, or a failure;
  - `AddAnswer`: the id the backend assigned, or a failure;
  - a flag for whether a delete succeeded;
  - `seedWriteOk(i)`, which says whether the i-th seed write succeeds.
- **Seed dataset.** The bundled dataset is a constructor parameter of `Catalog`.
- **Name comparison.** `localeCompare` is a parameter `nameLe`. The sortedness results about names assume it is total.
- **Edit prefill.** The number-to-text formatting that prefills the edit form (`toString()` of price, coordinates and so on) is a parameter `NumberTexts`.

## Behaviour of the code

The model follows the code as written; notably:

- **Seeding.** Seeding an empty backend writes the dataset records as they are, without stripping their ids. Afterwards the list becomes the bundled records, not the stored copies.
- **Amenities.** Empty pieces are not dropped, so `"a, ,b"` gives `["a", "", "b"]`.
- **No update or confirmation.** There is no update operation. Editing goes through the same `onSubmit`, and a delete asks for no confirmation.
- **Form after submit.** After a submission the form is always reset to the empty new-listing state, even when editing.
- **Saved id.** The saved record's id comes from the backend unless the submitted record already carries one, because the submitted fields are spread after the backend id.
- **Load errors.** A later successful load never clears the error. After a failed load the main panel shows the error notice, not the bundled list. The message says local data is in use, but the list is not displayed (`Catalog.LoadProperties`, last `ensures`).

## Model

| member | source | states |
|---|---|---|
| JsStrings.Trim | src/components/PropertyForm.js:108 | `trim` keeps an infix of the text with only white space before and after it, and the infix neither starts nor ends with white space; the result is empty exactly when the text is all white space |
| JsStrings.TrimmedIsFixed | src/components/PropertyForm.js:114 | `trim` leaves a text unchanged exactly when it neither starts nor ends with white space |
| JsStrings.SplitOnComma | src/components/PropertyForm.js:114 | `split(',')` gives one more piece than there are commas, and no piece contains a comma |
| JsStrings.JoinSplitOnComma | src/components/PropertyForm.js:114 | joining the comma-split pieces with a comma restores the text |
| JsStrings.SplitJoin | src/components/PropertyForm.js:19 | splitting a `join(', ')` of comma-free pieces gives the first piece and then each later piece behind a space |
| JsStrings.SplitWithoutComma | src/components/PropertyForm.js:114 | a comma-free text splits into itself alone |
| JsStrings.Join | src/components/PropertyForm.js:19 | `join` starts with the first piece and is the pieces plus one separator per neighbouring pair long; `SplitJoin` is its inverse |
| JsStrings.ParseInt | src/components/PropertyForm.js:109 | `parseInt` is NaN for blank text and for text starting with a letter; text starting with a digit gives the value of its leading digits |
| JsStrings.ParseFloat | src/components/PropertyForm.js:72 | `parseFloat` is NaN for blank text and for text starting with a letter; text starting with a digit is read as an unsigned number |
| JsStrings.ParseFloatDigits | src/components/PropertyForm.js:101 | a digit run followed by text that does not continue the number parses to the value of the digits |
| JsStrings.ParseFloatDecimal | src/components/PropertyForm.js:101 | digits, a point and digits, followed by text that does not continue the number, parse to the decimal value |
| JsStrings.ParseIntDigits | src/components/PropertyForm.js:109 | `parseInt` of a digit run followed by a non-digit is the value of the digit run |
| JsStrings.DigitPrefix | src/components/PropertyForm.js:109 | the longest prefix made of decimal digits |
| Sequences.Filter | src/components/ListView.js:11-18 | `Array.prototype.filter` keeps, in order, exactly the kept elements, each as often as in the input |
| Sequences.FilterKeepsAll | src/components/ListView.js:17 | a filter whose callback keeps everything returns the array unchanged |
| Sequences.FilterIdempotent | src/App.js:62 | filtering twice with the same callback is filtering once |
| Sequences.FilterAppend | src/App.js:51 | filtering a concatenation is the concatenation of the filtered parts |
| Sequences.InsertionSort | src/components/ListView.js:20-30 | the sorted copy is a permutation of the input |
| Sequences.InsertionSortSorted | src/components/ListView.js:20-30 | under a total comparator the sorted copy is ordered between neighbours |
| Sequences.InsertionSortAgrees | src/components/ListView.js:26-28 | two comparators that agree everywhere give the same sorted copy |
| PropertyForm.Form.Create | src/components/PropertyForm.js:21-38 | a new-listing form starts empty, as an apartment for rent in PLN |
| PropertyForm.Form.Edit | src/components/PropertyForm.js:4-20 | an edit form is prefilled from the record: texts, joined amenities, empty address |
| PropertyForm.Form.HandleChange | src/components/PropertyForm.js:145-150 | the field the input's name designates takes the new text; the other fields are unchanged |
| PropertyForm.FieldName | src/components/PropertyForm.js:145-150 | every field has an input name that designates it |
| PropertyForm.SetSameValue | src/components/PropertyForm.js:145-150 | a change event carrying the text a field already holds leaves the form as it was |
| PropertyForm.SetFieldThenGet | src/components/PropertyForm.js:145-150 | a field update stores the text in that field and leaves every other field as it was |
| PropertyForm.FieldsDetermineForm | src/components/PropertyForm.js:4-38 | two form states that agree on all sixteen fields are equal |
| PropertyForm.Form.SearchAddress | src/components/PropertyForm.js:40-63 | without an address nothing changes; a match replaces exactly the two coordinate texts; no match or a failed request changes nothing and is reported |
| PropertyForm.Amenities | src/components/PropertyForm.js:114 | an empty text gives no amenities; otherwise one trimmed, comma-free entry per comma-separated piece |
| PropertyForm.SubmitForm | src/components/PropertyForm.js:67-124 | missing name or price rejects; an accepted record has non-zero, non-NaN coordinates, the edited record's id, the name, link, image, type and transaction type, the parsed price, currency PLN, and the coerced metrics and details |
| PropertyForm.AcceptedWhenValid | src/components/PropertyForm.js:67-124 | a form with name and price whose coordinates resolve to two non-zero numbers is accepted with those coordinates |
| PropertyForm.AcceptedExactly | src/components/PropertyForm.js:67-95 | the form is accepted exactly when name and price are present, the coordinates resolve, and both are non-zero numbers |
| PropertyForm.Form.HandleSubmit | src/components/PropertyForm.js:65-143 | the early-return handler gives the outcome `SubmitForm` specifies; it asks the geocoder exactly when the required fields are present and an address stands in for a missing coordinate; it clears the form only on acceptance |
| PropertyForm.GeocoderOnlyWhenNeeded | src/components/PropertyForm.js:74 | when no lookup is needed the geocoder's answer does not affect the submission |
| PropertyForm.LookupFailureRejects | src/components/PropertyForm.js:80-89 | a needed lookup that finds nothing or fails rejects the submission, with distinct reasons |
| PropertyForm.AcceptedCoordinates | src/components/PropertyForm.js:72-90 | the accepted coordinates are the parsed coordinate texts, or the parsed first match when a lookup was needed |
| PropertyForm.BlankCoordinateRejects | src/components/PropertyForm.js:92-95 | without a lookup, a blank coordinate text rejects the submission |
| PropertyForm.ZeroLatitudeRejects | src/components/PropertyForm.js:92-95 | a latitude of `"0"` counts as missing and rejects the submission |
| PropertyForm.Coercions | src/components/PropertyForm.js:107-116 | blank area and rooms become 0; the floor is kept exactly for an apartment with a non-blank floor; the year is null exactly when blank |
| PropertyForm.AmenitiesKeepBlankPieces | src/components/PropertyForm.js:114 | an amenity entry is empty exactly when its piece is all white space; such entries are kept |
| PropertyForm.AmenitiesRoundTrip | src/components/PropertyForm.js:19 | prefilling with `join(', ')` of trimmed, comma-free amenities and submitting gives the same amenities back |
| PropertyForm.AmenitiesOfPieces | src/components/PropertyForm.js:114 | pieces `x0`, `" " + x1`, … of trimmed texts give back the texts |
| PropertyForm.TrimAfterSpace | src/components/PropertyForm.js:114 | trimming a space in front of a trimmed text gives the text |
| PropertyForm.SearchThenSubmit | src/components/PropertyForm.js:40-90 | pressing search and then submit gives what submit alone gives when it looks the address up with the same answer |
| PropertyForm.EditResubmit | src/components/PropertyForm.js:4-122 | resubmitting an unchanged edit form keeps the record's id, texts, type, description and amenities |
| ListView.FilterProperties | src/components/ListView.js:11-18 | the filtered list is an ordered sub-list holding exactly the matching records, each as often as before |
| ListView.UnconstrainedFilterKeepsAll | src/components/ListView.js:12-17 | `'all'` and any value not offered keep the whole list |
| ListView.FilterKeepsExactlyMatching | src/components/ListView.js:13-16 | each transaction and type filter keeps exactly the records with that value, in both directions |
| ListView.HouseThenApartmentIsEmpty | src/components/ListView.js:15-16 | no record passes both the house and the apartment filter |
| ListView.SortProperties | src/components/ListView.js:20-30 | the sorted copy is a permutation of the filtered list |
| ListView.SortKeyTotal | src/components/ListView.js:20-30 | the price and area comparators are total; the name one is when `localeCompare` is |
| ListView.SortedBySortKey | src/components/ListView.js:20-30 | each record of the sorted list may come before its successor |
| ListView.SortedByPrice | src/components/ListView.js:22-23 | sorted by price: neighbouring prices do not decrease, with NaN prices first |
| ListView.SortedByArea | src/components/ListView.js:24-25 | sorted by area: neighbouring areas do not decrease, with NaN areas first |
| ListView.OtherKeysSortByName | src/components/ListView.js:26-28 | `'name'` and every unknown key give the same order, ordered by names |
| ListView.DisplayedProperties | src/components/ListView.js:11-30 | the list shows exactly the matching records, each as often as in the catalogue |
| ListView.EmptyStateExactlyWhenNoMatch | src/components/ListView.js:101-105 | the empty-state message shows exactly when no record matches the filter |
| App.StoredRecord | src/services/propertyService.js:14-15 | the saved record carries the submitted name, link, image, price, currency, type, transaction type, metrics and details, coordinates from `lat`/`lng`, and the backend id unless the submission has its own |
| App.RemoveById | src/App.js:62 | the list after delete is an ordered sub-list without that id, keeping every other record as often as before |
| App.RemoveAbsentId | src/App.js:62 | deleting an id no record has changes nothing |
| App.RemoveTwice | src/App.js:62 | a second delete of the same id changes nothing |
| App.AddThenRemove | src/App.js:44-67 | adding a new record and deleting the id the backend gave it restores the list |
| App.SubmittedRecord | src/App.js:44-51 | a record the form accepts reaches the catalogue with non-zero coordinates, its name, and the edited record's id or else the backend id |
| App.FirstRejected | src/App.js:28-30 | the index of the first seed write the backend rejects: all earlier writes succeed |
| App.FirstRejectedFrom | src/App.js:28-30 | the first rejected seed write at or after a given index |
| App.Catalog.constructor | src/App.js:10-14 | an empty list, the map view, the form hidden, loading, and no error |
| App.Catalog.MainContent | src/App.js:97-105 | the panel shows the loading notice exactly while loading, then the error exactly when there is one, and the records in the map or the list exactly when there is none |
| App.Catalog.LoadProperties | src/App.js:20-42 | non-empty backend data becomes the list; an empty backend is seeded in order up to the first rejected write and the list becomes the bundled dataset; a rejected write or failed read sets the error; loading always ends; after an error the panel shows the notice |
| App.Catalog.AddProperty | src/App.js:44-57 | on success the saved record is appended and the form closes; on failure nothing changes |
| App.Catalog.DeleteProperty | src/App.js:59-67 | on success exactly the records with that id leave the list, the rest in order; on failure nothing changes |
| App.Catalog.ToggleView | src/App.js:75 | the view flips between map and list and nothing else changes |
| App.Catalog.ToggleForm | src/App.js:81 | the form's visibility flips and nothing else changes |
| App.Catalog.CancelForm | src/App.js:92 | the form closes and nothing else changes |
| ColorUtils.NormalizedPrice | src/utils/colorUtils.js:3-5 | the price maps linearly onto [0, 1] over 1000–10000 and is clamped outside |
| ColorUtils.PriceColor | src/utils/colorUtils.js:1-13 | hue in [0, 120], saturation in [70, 100], lightness in [45, 55] |
| ColorUtils.PriceLightColor | src/utils/colorUtils.js:15-25 | hue in [0, 120], saturation in [40, 60], lightness in [85, 95] |
| ColorUtils.NormalizedMonotone | src/utils/colorUtils.js:5 | a dearer price never normalises lower |
| ColorUtils.ColorMonotone | src/utils/colorUtils.js:8-10 | as the price rises the hue moves toward red and saturation and lightness do not fall, in both variants |
| ColorUtils.ColorEndpoints | src/utils/colorUtils.js:1-25 | prices at or below 1000 are full green, at or above 10000 full red, with the extreme saturation and lightness |
| ColorUtils.HueInRange | src/utils/colorUtils.js:8 | inside the range the hue falls linearly from 120 to 0 |
| ColorUtils.LightVariant | src/utils/colorUtils.js:15-25 | the pale variant shares the hue and is less saturated and lighter |
| ColorUtils.MidpointIsYellow | src/utils/colorUtils.js:1-13 | the midpoint price 5500 is hue 60 at 85% saturation and 50% lightness |

## Left out

- The number conversions are not modelled in full:
  - `parseInt`'s hexadecimal prefix (`"0x…"`) is not modelled;
  - `parseFloat` of `"Infinity"` gives NaN in the model;
  - the number-to-text formatting of the edit prefill is a parameter.
- `JsStrings.ParseFloat`: numbers are exact reals, and `JsStrings.ParseInt` gives exact integers. There is no rounding, no overflow to `Infinity` and no underflow to 0. So `"1e-400"` is 10^-400 in the model, and a latitude written that way is accepted. In JavaScript it parses to 0 and is rejected as missing.
- The HTML inputs' own checks are not modelled: the `required` attribute and the sanitising of number inputs.
- `PropertyForm.Form.HandleChange`: an input name outside the sixteen fields adds a new key in the code. In the model it leaves the form unchanged.
- User feedback is left out: `alert` and `console` output, and the loading text.
- Network details are left out: the geocoder URL, the HTTP request and the JSON decoding. Only their outcome is modelled.
- Interleaving of the asynchronous handlers is left out. Each handler runs to completion on one recorded answer.
- `MapView`, `PropertyDetails`, `Auth` and the backend service are not part of this model. Only the backend's answers and the id rule of its add call appear.
- The bundled dataset file is not part of this model; it is a parameter.
- `App.StoredRecord`: the saved record also keeps the submitted `lat`/`lng` keys beside `coordinates`. The model keeps only `coordinates`.
- `ColorUtils.PriceColor`: it does not model the `hsl(...)` text formatting, floating-point rounding, or a NaN price. Prices are exact reals.
- `ListView.SortProperties`: the price and area comparators return NaN for a NaN value. That makes the engine's order implementation-defined. The model places NaN first.
- `ListView.SortProperties`: the sort's stability is not stated.
- `ListView.SortProperties`: `localeCompare` is an abstract comparison.
