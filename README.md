# Hotel data merger — a Dafny model

This project models the core of a hotel-data aggregation service. The service
fetches lists of hotel records from several suppliers. Each supplier names its
fields differently (`id`, `Id` or `hotel_id`; `lat` or `Latitude`, …). The
service normalises every record into one `Hotel` shape and merges records that
share an id into one. It then narrows the merged list by an optional
destination and an optional list of hotel ids.

The model follows the TypeScript code, not its tests, wherever the two differ:

- The first record's name wins: a merge never touches the name, so a later,
  longer name does not replace it.
- Image records keep whatever fields the supplier sent. A supplier's
  `url`/`caption` pair is not renamed to `link`/`description`.
- A stored truthy latitude or longitude is never replaced, so a later, more
  precise coordinate is dropped.
- Images sent as `{url, caption}` have neither `link` nor `description`, so
  every such image has the key (undefined, undefined). A merge keeps only the
  first of them in each list, where the tests expect all of them.
- Amenities keep the supplier's spelling until a second record for the same
  hotel arrives. On that merge they are normalised.
- De-duplication and amenity normalisation happen only on a merge. A hotel
  that appears once keeps its trimmed lists, duplicates included.
- Records without any id alias are all filed under the key `"undefined"` and
  merged together.

Modules:

- `JsSemantics` (`js_semantics.dfy`) — the JavaScript semantics the code relies
  on:
  - truthiness of strings and numbers;
  - `||` as "first truthy operand";
  - `String.prototype.trim` with the ECMAScript whitespace set;
  - ASCII `toLowerCase`.
- `Sequences` (`sequences.dfy`) — list operations:
  - `Array.prototype.filter`, `map` and `findIndex`;
  - `Array.from(new Set(xs))`, generalised to a key;
  - the subsequence relation.
- `HotelInterfaces` (`hotel_interfaces.dfy`) — the `Hotel` record.
- `DataMerger` (`data_merger.dfy`) — `mergeHotelData`, `mergeImageArrays` and
  `normalizeAmenity`:
  - The normaliser is a function from a raw supplier record to a `Hotel`.
  - The merge branch is the function `Merged`, with the method `MergeInto`
    that updates the stored record field by field as the source does.
  - The nested `forEach` loops are the methods `MergeSource` and
    `MergeHotelData`. Their `while` loops are proved against the fold
    `FoldHotels`.
- `HotelService` (`hotel_service.dfy`) — the destination and id filter of
  `getMergedHotelData`.

## Model

| member | source | states |
|---|---|---|
| JsSemantics.Trim | src/utils/dataMerger.ts:15-53 | `.trim()` leaves no whitespace at either end and is the identity on a string that has none |
| JsSemantics.TrimIsSlice | src/utils/dataMerger.ts:15-53 | the trimmed string is a contiguous slice of the input, and everything cut off on either side is whitespace |
| JsSemantics.Utf16Length | src/utils/dataMerger.ts:65 | `.length` counts UTF-16 code units: between one and two per character, exactly one per character when none is at or above U+10000, exactly two per character when all are |
| JsSemantics.Utf16LengthAppend | src/utils/dataMerger.ts:65 | the count of a concatenation is the sum of the counts, so with the one-character cases each character below U+10000 counts one and each above counts two |
| JsSemantics.ToLowerAscii | src/utils/dataMerger.ts:151 | `.toLowerCase()` keeps the length, maps each ASCII capital to the letter 32 code points above it and leaves every other character as it is, so no upper-case letter remains and a string without upper case is unchanged |
| DataMerger.IdOf | src/utils/dataMerger.ts:8 | the hotel id is `id` when truthy, else `Id` when truthy, else `hotel_id` |
| DataMerger.DestinationOf | src/utils/dataMerger.ts:12-13 | the destination is `destination_id`, else `DestinationId`, else `destination`, first truthy wins |
| DataMerger.NameOf | src/utils/dataMerger.ts:14-15 | the name is the first truthy trimmed alias among `name`, `Name`, `hotel_name`, and is trimmed |
| DataMerger.LatOf | src/utils/dataMerger.ts:17 | latitude is the first truthy of `lat`, `Latitude`, `location.lat`; otherwise null, never a falsy number |
| DataMerger.LngOf | src/utils/dataMerger.ts:18 | longitude is the first truthy of `lng`, `Longitude`, `location.lng`; otherwise null |
| DataMerger.AddressOf | src/utils/dataMerger.ts:19-23 | address is the first truthy trimmed alias among `address`, `Address`, `location.address`; otherwise null |
| DataMerger.CityOf | src/utils/dataMerger.ts:24 | city is the trimmed `City` when truthy, then `location.city`; otherwise null |
| DataMerger.CountryOf | src/utils/dataMerger.ts:25-26 | country is the trimmed `Country` when truthy, then `location.country`; otherwise null |
| DataMerger.PostalCodeOf | src/utils/dataMerger.ts:27 | postal code is the trimmed `PostalCode` when truthy and null otherwise |
| DataMerger.DescriptionOf | src/utils/dataMerger.ts:29-33 | description is the first truthy trimmed alias among `description`, `Description`, `details`; otherwise null |
| DataMerger.GeneralAmenities | src/utils/dataMerger.ts:34-41 | general amenities come from `amenities.general`, else `Facilities`, else a plain `amenities` list, else `[]`; every entry is trimmed |
| DataMerger.RoomAmenities | src/utils/dataMerger.ts:42-44 | room amenities are the trimmed `amenities.room` list or `[]` |
| DataMerger.NormalizedShape | src/utils/dataMerger.ts:10-54 | in a normalised record every string is trimmed or null, coordinates are null or truthy, and every list is present and trimmed |
| DataMerger.SplitCamelCase | src/utils/dataMerger.ts:150 | the camel-case split leaves no lower-case letter followed by an upper-case one, keeps the first character, is the identity without upper case, and leaves a string of at most one character unchanged |
| DataMerger.SplitCamelCaseKeepsLetters | src/utils/dataMerger.ts:150 | with spaces removed, input and output of the split are the same string |
| DataMerger.SplitCamelCaseAppend | src/utils/dataMerger.ts:150 | splitting a concatenation splits each part and inserts exactly one space where a lower-case letter meets an upper-case one, nothing else; with the one-character case this fixes the result on every input |
| DataMerger.CollapseSeparators | src/utils/dataMerger.ts:153 | replacing every run of whitespace and hyphens by one hyphen leaves no whitespace and no `--`; the result starts with `-` exactly when the input starts with a separator |
| DataMerger.CollapseSeparatorsKeepsText | src/utils/dataMerger.ts:153 | the collapse only drops and inserts separators: with whitespace and hyphens removed, input and output are the same string |
| DataMerger.CollapseRun | src/utils/dataMerger.ts:153 | a non-empty run made only of whitespace and hyphens becomes exactly one `-` |
| DataMerger.CollapseAppend | src/utils/dataMerger.ts:153 | cut anywhere outside a run of separators, the collapse of the whole is the collapse of the parts joined, so each run between words becomes one `-` and each word is kept as is |
| DataMerger.CollapseFixesClean | src/utils/dataMerger.ts:153 | the separator collapse is the identity on a string without whitespace or `--` |
| DataMerger.NormalizeAmenity | src/utils/dataMerger.ts:148-154 | a normalised amenity has no ASCII upper case, no whitespace and no `--` |
| DataMerger.NormalizeAmenityFixedPoint | src/utils/dataMerger.ts:148-154 | an amenity is left unchanged by normalisation exactly when it has no ASCII upper case, no whitespace and no `--` |
| DataMerger.NormalizeAmenityIdempotent | src/utils/dataMerger.ts:148-154 | normalising an amenity twice gives the same result as once |
| DataMerger.NormalizeAll | src/utils/dataMerger.ts:73-74 | mapping the normaliser keeps the length, normalises every entry and leaves an already normalised list unchanged |
| DataMerger.SetUnion | src/utils/dataMerger.ts:100-105 | `Array.from(new Set([...a, ...b]))` is `a + b` with each element kept only at its first occurrence (the `findIndex` definition of insertion order); it has no duplicates, holds exactly the elements of `a` and `b`, and is a subsequence of `a + b` |
| DataMerger.SetUnionKeepsExistingFirst | src/utils/dataMerger.ts:100-105 | the de-duplicated existing list stays in front, in its order; a duplicate-free existing list is kept whole |
| DataMerger.SetUnionAbsorbs | src/utils/dataMerger.ts:100-105 | a union with a list whose entries are all present leaves a duplicate-free list unchanged |
| DataMerger.MergeAmenities | src/utils/dataMerger.ts:71-83 | merged amenities are the normalised existing and incoming lists, concatenated, with each entry kept only at its first occurrence; they have no duplicates, are all normalised, and are exactly the normalised forms of both lists |
| DataMerger.MergeAmenitiesKeepsExistingFirst | src/utils/dataMerger.ts:71-83 | for any incoming list, the merge starts with the existing list merged on its own; a duplicate-free, normalised existing list is that prefix itself |
| DataMerger.MergeImageArrays | src/utils/dataMerger.ts:133-146 | the `findIndex` filter keeps exactly what set insertion by (link, description) keeps: no key twice, every key of either list represented, a subsequence of the concatenation |
| DataMerger.MergeImageArraysKeepsExistingFirst | src/utils/dataMerger.ts:133-146 | a duplicate-free first list is the prefix of the merged images |
| DataMerger.UrlCaptionImagesCollide | src/utils/dataMerger.ts:133-146 | two images that carry neither `link` nor `description` share one key, so merging them keeps only the first |
| DataMerger.MergeImageGroups | src/utils/dataMerger.ts:86-97 | after a merge none of the three image lists repeats a (link, description) pair |
| DataMerger.MergeAmenityGroups | src/utils/dataMerger.ts:71-83 | after a merge both amenity lists are duplicate-free and normalised |
| DataMerger.LongerDescription | src/utils/dataMerger.ts:61-68 | the stored description is replaced only by a non-empty one strictly longer in UTF-16 code units, and the result is at least as long as both |
| DataMerger.TwoEmojiOutweighThreeLetters | src/utils/dataMerger.ts:62-68 | two emoji (four UTF-16 units) replace a stored three-letter description |
| DataMerger.Merged | src/utils/dataMerger.ts:59-125 | a merge keeps id, name and destination; the description comes from one side and is at least as long as either |
| DataMerger.MergedFillsLocation | src/utils/dataMerger.ts:107-125 | a truthy stored location field is kept, and a falsy one takes the incoming value |
| DataMerger.MergedIsReconciled | src/utils/dataMerger.ts:70-105 | after a merge no list holds a duplicate and every amenity is normalised |
| DataMerger.ImagesAbsorb | src/utils/dataMerger.ts:133-146 | merging the same image list a second time changes nothing |
| DataMerger.AmenitiesAbsorb | src/utils/dataMerger.ts:71-83 | merging the same amenities a second time changes nothing |
| DataMerger.ImageGroupsAbsorb | src/utils/dataMerger.ts:86-97 | merging the same image groups a second time changes nothing |
| DataMerger.BookingAbsorbs | src/utils/dataMerger.ts:100-105 | merging the same booking conditions a second time changes nothing |
| DataMerger.MergeAgainIsIdempotent | src/utils/dataMerger.ts:59-125 | merging the same incoming record twice gives the same hotel as merging it once |
| DataMerger.MergeInto | src/utils/dataMerger.ts:59-125 | the field-by-field updates of the merge branch build exactly `Merged(existing, incoming)` |
| DataMerger.KeyOf | src/utils/dataMerger.ts:56-57 | a present id is its own dictionary key, and an absent (`undefined`) id becomes the key "undefined" |
| DataMerger.StepCases | src/utils/dataMerger.ts:56-59 | a new key stores the normalised record; a known key stores the merge of the stored and the new record; no other key changes |
| DataMerger.StepKeepsIdentity | src/utils/dataMerger.ts:59-125 | one step never changes a stored id, name or destination |
| DataMerger.StepReconciles | src/utils/dataMerger.ts:59-125 | one step reconciles the entry it merges into and keeps other reconciled entries reconciled |
| DataMerger.StepKeepsLongest | src/utils/dataMerger.ts:61-68 | one step never shortens a stored description and stores one at least as long as the incoming record's |
| DataMerger.FoldKeys | src/utils/dataMerger.ts:6-8 | after folding, a key is present exactly when it was present before or some record carries it |
| DataMerger.FoldLeavesOtherKeys | src/utils/dataMerger.ts:56-59 | records with other keys leave an entry untouched |
| DataMerger.FoldFirstWriterWins | src/utils/dataMerger.ts:56-59 | the stored id, name and destination are those of the first record with the key |
| DataMerger.FoldSeenOnce | src/utils/dataMerger.ts:56-57 | a hotel seen exactly once is stored as its normalised record, duplicates in its lists included |
| DataMerger.FoldReconciles | src/utils/dataMerger.ts:56-125 | once a second record with a key has been folded in, that entry stays duplicate-free and normalised |
| DataMerger.FoldKeepsLongestDescription | src/utils/dataMerger.ts:61-68 | the stored description is at least as long as every description offered for its key |
| DataMerger.FoldHotelsAppend | src/utils/dataMerger.ts:6-7 | folding two lists one after the other is folding their concatenation |
| DataMerger.Flatten | src/utils/dataMerger.ts:6-7 | the records visited are exactly those of all suppliers |
| DataMerger.MergeAllKeys | src/utils/dataMerger.ts:3-8 | the result has one entry per distinct id among all records, and no other |
| DataMerger.MergeRecord | src/utils/dataMerger.ts:8-126 | the inner loop body stores a new record or merges it into the stored one, as one fold step |
| DataMerger.MergeSource | src/utils/dataMerger.ts:7-127 | the inner loop folds a supplier's records in order |
| DataMerger.MergeHotelData | src/utils/dataMerger.ts:3-128 | the outer loop folds every supplier in order, and its dictionary has one entry per distinct id |
| DataMerger.InheritedKeyThrows | src/utils/dataMerger.ts:56-59 | with an own-key lookup, a record whose id names an `Object.prototype` member is stored; the lookup as written throws |
| DataMerger.ToStringIdThrows | src/utils/dataMerger.ts:56-71 | a first record with id "toString" makes the call throw as written, where it should be stored under "toString" |
| DataMerger.StepAsWrittenAgreesElsewhere | src/utils/dataMerger.ts:56-59 | for every other key the lookup as written and the own-key lookup agree |
| HotelService.FilterMergedHotels | src/services/hotelService.ts:22-34 | the two conditional filters equal one filter by the conjunction of the active tests; the result is an order-preserving subsequence holding exactly the merged hotels that pass |
| HotelService.SelectedAsSteps | src/services/hotelService.ts:24-32 | destination-then-ids, with either step switched off, equals the single conjunctive filter |
| HotelService.NoFiltersKeepsAll | src/services/hotelService.ts:24-30 | a falsy destination and an absent or empty id list return the merged list unchanged |
| HotelService.FilterOrderIrrelevant | src/services/hotelService.ts:22-34 | filtering by ids first and destination second gives the same list |
| HotelService.FilterMergedHotelsIdempotent | src/services/hotelService.ts:22-34 | filtering the result again with the same arguments changes nothing |

## Left out

- Fetching from the suppliers with `axios.get` under `Promise.all` is network
  I/O. It is left out. The model takes the suppliers' responses as a sequence
  of record sequences. In the source, one failed supplier rejects the whole
  call.
- The supplier URLs, the Redis client, the HTTP routes and controller,
  `getHotelById`, pagination and the error middleware are not part of this
  model.
- Floating-point numbers are modelled as a real or NaN. Only truthiness and
  `===` are used.
- `toLowerCase` and camel-case detection cover ASCII letters only. Unicode
  case mapping is not modelled.
- Supplier records are typed: the aliases the code reads are strings, numbers,
  string lists or image lists. Values of other types in those fields are not
  modelled. Neither are `.map(x => x.trim())` applied to non-strings, nor
  `Array.isArray` of non-lists.
- The stored record is updated in place in the source. The model returns the
  updated record, which is equivalent because the dictionary holds the only
  reference to it.
- DataMerger.MergeHotelData: returns the dictionary, not
  `Object.values(mergedHotels)`. The enumeration order of JavaScript property
  keys is not modelled, so the list order of the result is not stated.
- DataMerger.KeyOf: an id that a supplier sends as `null` is keyed "null" by
  JavaScript. The model reads a `null` field as absent, so it files that
  record under "undefined".
- DataMerger.MergeHotelData: the fold uses an own-key lookup. For an id that
  names an `Object.prototype` member, such as "toString", it stores the record
  where the source throws a TypeError. The finding below models the lookup as
  written.
- HotelService.FilterMergedHotels: takes the merged list as given. Its
  statements hold for any order of that list.

## Findings

| source | as written | input that shows it | evidently intended | confidence | as-written member | corrected member |
|---|---|---|---|---|---|---|
| src/utils/dataMerger.ts:56-59 | `mergedHotels` is created as `{}`, so `mergedHotels[hotelId]` also finds members inherited from `Object.prototype`. Such a member is truthy, so the merge branch runs on it. Reading `.amenities.general` of that member then throws a TypeError | a first supplier record with `"id": "toString"` | a record whose id is not yet in the dictionary is stored under that id | high on the JavaScript semantics; not executed | DataMerger.ToStringIdThrows | DataMerger.InheritedKeyThrows |
