# Travel log: a Dafny model of the place collection

The travel log is a single-page application where a user keeps places they have
visited or want to visit, shown as a list and on a map. This project models its
core logic:

- **Country attribution.** A boundary feature's ISO 3166-1 alpha-2 code is read
  from four property spellings, tried in order. The name/code → code lookup table
  is built from the boundary dataset by a loop. A place resolves to a code by its
  explicit `countryCode`, otherwise by its trimmed, lower-cased country name, and
  otherwise to null.
- **Derived views.** These are the text/status filter of the list, and the header
  statistics, which fall back to country names when the table is empty. They also
  include the set of visited country codes, built by a loop, and the
  visited/not-visited decision for each map feature.
- **Collection state.** A `TravelLog` object holds the places, the selected id, the
  last clicked map position and the stored copy of the collection. Its methods
  create a place from the form, edit the selected place, remove by id, import a
  parsed JSON array and switch a row's status (as intended; see "## Findings" for
  what the button does as written).
- **Import normalisation and export.** Each array element becomes one normalised
  place. The collection is left alone when the input is not an array, when an
  element is null, or when converting a field to text or a number raises a
  TypeError. A collection of normal places survives being written out as JSON and
  read back; places the details panel can produce that are not normal lose fields.
- **Place search.** `toPlace` turns one geocoder result into place fields through
  fixed fallback chains.

`src/App.jsx` keeps the collection only in browser storage. The code has no
remote persistence, no optimistic create and no adapter between stored rows and
places, so the model has none either.

The JavaScript semantics the code relies on are written out in `JsText` and
`JsValue`:

- truthiness, where `""`, `0`, `NaN`, `null` and `undefined` are falsy;
- `String(...)`, `Number(...)` and `x || y`;
- `trim`, with the ECMAScript white-space and line-terminator set;
- `toLowerCase`/`toUpperCase`, `includes`, `split` and `join`.

Numbers are `Finite(real) | NaN | PosInfinity | NegInfinity`. The two conversions
between text and numbers (`Number(string)` and `String(number)`) are a parameter of
type `Coercion`. Fresh uuids are parameters as well.

Files: `js_text.dfy`, `js_value.dfy`, `seqs.dfy`, `places.dfy`,
`country_index.dfy`, `views.dfy`, `import.dfy`, `travel_log.dfy`,
`place_search.dfy`. Each holds the module of the same name.

## Model

| member | source | states |
|---|---|---|
| CountryIndex.FeatureCode | src/App.jsx:92 | the feature's code is upper case |
| CountryIndex.FeatureCodeFirstTruthy | src/App.jsx:92 | the code is the upper-cased text of the first truthy property among `ISO3166-1-Alpha-2`, `ISO_A2`, `iso_a2`, `ISO2`, in that order |
| CountryIndex.FeatureCodeMissing | src/App.jsx:92 | with none of the four properties truthy the code is "" |
| CountryIndex.FeatureName | src/App.jsx:93 | the lower-cased `String` of the first truthy of `name` and `NAME`, "" when neither is truthy; it holds no upper-case ASCII letter |
| CountryIndex.AddFeature | src/App.jsx:91-95 | the body of the `forEach`: one feature's writes into the table; its effect is stated by `AddFeatureEffect` |
| CountryIndex.IndexOf | src/App.jsx:89-96 | the `forEach` over all features, as the table after the last one; stated by `IndexKeys`, `IndexLastWriterWins` and `IndexValuesAreCodes` |
| CountryIndex.BuildIndex | src/App.jsx:87-98 | the loop over the features yields an empty table without a dataset, and otherwise the table of `IndexOf` |
| CountryIndex.AddFeatureEffect | src/App.jsx:93-95 | one feature adds exactly its lower-cased code, and also its lower-cased name when both are non-empty; both map to its code; other entries are untouched |
| CountryIndex.IndexKeys | src/App.jsx:89-96 | a key is in the table if and only if some feature writes it |
| CountryIndex.IndexLastWriterWins | src/App.jsx:89-96 | a key maps to the code of the last feature that writes it, so a later duplicate overwrites an earlier one |
| CountryIndex.IndexValuesAreCodes | src/App.jsx:92-95 | every value in the table is a non-empty upper-case code |
| CountryIndex.Alpha2For | src/App.jsx:100-105 | a missing place resolves to null, and a resolved code is never empty |
| CountryIndex.CodeIsAuthoritative | src/App.jsx:102 | a non-empty `countryCode` resolves to itself upper-cased whatever the table holds |
| CountryIndex.CountryNameLookup | src/App.jsx:103-104 | without a code the place resolves to the table entry of its trimmed, lower-cased country, and to null when the key is absent |
| CountryIndex.ResolvedCodesAreUpper | src/App.jsx:100-105 | with a table built from a dataset every resolved code is upper case |
| CountryIndex.CodeBeatsCountryExample | src/App.jsx:102 | an example on literals: the code "fr" with the country "Italy" resolves to "FR" even though "italy" maps to "IT" |
| Views.SearchText | src/App.jsx:112 | the text searched: name, country, city and the tags joined by spaces, separated by spaces |
| Views.Matches | src/App.jsx:112-115 | the filter's test: the lower-cased search text includes the lower-cased query, and the status filter is "all" or the place's status |
| Views.FilterPlaces | src/App.jsx:111-118 | the list is an order-preserving subsequence of the places; a place is in it if and only if its lower-cased name/country/city/tags text includes the lower-cased query and the status filter is "all" or its status; kept places keep their multiplicity |
| Views.FilterEmptyQueryAll | src/App.jsx:111-118 | an empty query under "all" lists every place, unchanged |
| Views.FilterEmptyQueryStatus | src/App.jsx:114-115 | an empty query under a status lists exactly the places of that status |
| Views.FilterExample | src/App.jsx:113-114 | "fra" keeps Paris, France and drops Rome, Italy |
| Views.PlaceStats | src/App.jsx:120-132 | `stats`: the visited and wishlist counts, and the distinct visited countries by code with a table, by name without; stated by the lemmas below |
| Views.ResolvedCodes | src/App.jsx:126 | `visited.map(getAlpha2ForPlace).filter(Boolean)`; stated by `ResolvedCodesMembers` |
| Views.CountryNames | src/App.jsx:128 | the non-empty trimmed country names of the visited places; stated by `CountryNamesMembers` |
| Views.StatsCountsBounded | src/App.jsx:121-122 | the visited and wishlist counts never add up to more than the number of places |
| Views.StatsCountMatchesVisitedSet | src/App.jsx:125-126 | with a non-empty table the country count is the size of the visited-country code set |
| Views.StatsNameFallback | src/App.jsx:127-128 | with an empty table the country count is the number of distinct non-empty trimmed country names of visited places |
| Views.ResolvedCodesMembers | src/App.jsx:126 | the listed codes are exactly the codes some visited place resolves to |
| Views.CountryNamesMembers | src/App.jsx:128 | the listed names are exactly the non-empty trimmed country names |
| Views.TwoVisitedNames | src/App.jsx:127-128 | two visited places with different trimmed names count as two countries with an empty table |
| Views.SameKeyOneCountry | src/App.jsx:125-126 | two visited places without codes whose names share a table key count as one country |
| Views.FallbackIsCaseSensitive | src/App.jsx:125-128 | names that differ only in case count twice by name and once through the table |
| Views.FranceSpellings | src/App.jsx:103 | "France" and "france " differ after trimming but share the key "france" |
| Views.FranceCountsTwiceByName | src/App.jsx:120-132 | visited places in "France" and "france " count as 2 countries with an empty table and as 1 with a table that knows "france" |
| Views.IsVisitedFeature | src/App.jsx:145-147 | the visited test of `countryStyle`: the feature's code is non-empty and in the visited set; stated by `ShadedIffVisitedPlace` |
| Views.VisitedCountrySet | src/App.jsx:134-143 | the loop yields exactly the set of non-null resolved codes of the visited places |
| Views.ShadedIffVisitedPlace | src/App.jsx:145-148 | a feature is shaded if and only if its code is non-empty and some visited place resolves to it |
| Views.NamedPlaceShadesFeature | src/App.jsx:93-104 | a visited place named like a feature, with no later feature claiming the name, shades that feature |
| Places.ParseTags | src/App.jsx:168 | the tags are non-empty, trimmed and comma-free; each is the trim of some comma-separated piece, and every non-blank piece appears trimmed |
| Places.TrimmedPieces | src/App.jsx:168 | the kept pieces are trimmed and non-empty, each the trim of some piece, and every non-blank piece is kept |
| Places.TrimEach | src/App.jsx:168 | `map(s => s.trim())`: one trimmed piece per piece, at the same position |
| Places.TrimmedPiecesFilter | src/App.jsx:168 | the kept pieces are exactly `filter(Boolean)` of the trimmed pieces |
| Places.ParseTagsOrderAndCount | src/App.jsx:168 | the tags are the non-blank trimmed pieces as an order-preserving subsequence, each non-blank piece as often as it occurs, so duplicates stay |
| Places.SplitTwoTags | src/App.jsx:168 | the text "tó, tó" splits at its comma into "tó" and " tó" |
| Places.TwoTagPiecesKept | src/App.jsx:168 | the pieces "tó" and " tó" are both kept, as "tó" |
| Places.DuplicateTagsKept | src/App.jsx:168 | the tag text "tó, tó" gives the tags "tó" and "tó" |
| JsText.JoinSplit | src/App.jsx:168 | joining the pieces of `split` with the separator gives back the text, so the split loses and invents nothing |
| Places.FormCountryCode | src/App.jsx:162 | the code is undefined exactly when the trimmed text is empty, and otherwise the trimmed text upper-cased, which is trimmed, non-empty and upper case |
| Places.Coordinate | src/App.jsx:169-172 | a finite coordinate is kept, and a non-finite one falls back to the last click or 0 |
| Places.PlaceFromForm | src/App.jsx:157-174 | nothing is created exactly when the trimmed name is empty; otherwise the place has the fresh id and a non-empty trimmed name |
| Places.PlaceFromFormFields | src/App.jsx:159-174 | every field of the created place: the trimmed texts, the normalised code, the tags, the coordinates with their fallback, the rating `Number(rating)`, or 0 when that is falsy (never NaN), the fresh id, and the rest as typed |
| Places.Apply | src/App.jsx:180 | the edited field holds the new value and every other field is unchanged |
| Places.UpdateById | src/App.jsx:179-181 | the length is kept; places with the id get the edit and keep their id; every other place is unchanged |
| Places.UpdateMissingId | src/App.jsx:180 | updating an id no place has changes nothing |
| Places.UpdateKeepsIds | src/App.jsx:180 | an edit keeps every id |
| Places.RemoveById | src/App.jsx:184 | the result is an order-preserving subsequence holding no place with the id, and every other place with its multiplicity |
| Places.RemoveCount | src/App.jsx:184 | exactly the places with the id are removed |
| Places.RemoveAdded | src/App.jsx:175-184 | removing the id of a place just put in front gives back the previous places |
| Places.SeedPlaces | src/App.jsx:29-58 | the first session starts with a visited "SI" place and a wishlist "CZ" place |
| Import.ImportedId | src/App.jsx:203 | a missing or null id becomes the fresh id, any other id is kept, and the result is never null |
| Import.TrimmedText | src/App.jsx:204-207 | an imported text is trimmed; a string value becomes its trim, and a falsy value gives "" |
| Import.ImportedCode | src/App.jsx:206 | the code is the trimmed, upper-cased text, or undefined exactly when that text is empty |
| Import.ImportedStatus | src/App.jsx:210 | the status is "visited" if and only if the raw value is exactly "visited", and otherwise "wishlist" |
| Import.ImportedRating | src/App.jsx:212 | a falsy rating is 0 and a truthy number is kept |
| Import.ImportedTags | src/App.jsx:214 | tags are `[]` unless the raw value is an array, and then its elements as text |
| Import.ImportedCoord | src/App.jsx:208-209 | a coordinate is never NaN; a truthy converted number is kept, and a falsy one becomes 0 |
| Import.NormalisePlace | src/App.jsx:202-215 | a normalised place has a non-null id, trimmed texts, a known status, a non-empty upper-case code when one is present, and coordinates that are not NaN |
| Import.NormaliseFields | src/App.jsx:203-210 | the id (fresh for a missing or null one, otherwise kept), the trimmed name, country and city, the code and the status, each in terms of the raw element |
| Import.NormaliseOtherFields | src/App.jsx:208-214 | the coordinates as `Number(x)` or 0 when that is falsy, the rating as 0 when falsy and otherwise `Number(rating)`, the date and notes as their text or "" when falsy, and the tags as `map(String)` of an array or `[]`, each in terms of the raw element |
| Import.Convertible | src/App.jsx:204-214 | normalising an element raises no TypeError: the fields passed to `String` or `Number` and the elements of an array of tags are all free of objects with their own `toString` key |
| Import.ImportPlaces | src/App.jsx:200-217 | an import succeeds if and only if the input parsed to an array without null elements whose elements all convert without a TypeError, and then gives one place per element |
| Import.ImportRejectsUnconvertible | src/App.jsx:204-219 | a file whose element has a name `{"toString": 0}` is rejected |
| Import.ImportOnePerElement | src/App.jsx:202 | the place at position i is the normalisation of element i |
| Import.ImportRejects | src/App.jsx:199-220 | unparseable input, a non-array and an array with a null element are all rejected |
| Import.ImportKeepsNameless | src/App.jsx:202-215 | an empty object becomes a nameless wishlist place at (0, 0) with the fresh id |
| Import.ToJson | src/App.jsx:18 | the object a place is stored and exported as is a JSON object |
| Import.ToJsonDescribes | src/App.jsx:18 | the object a place is stored as holds each field under its own name |
| Import.ToJsonConvertible | src/App.jsx:189-214 | the object a place is written as converts without a TypeError when it is imported |
| Import.ImportOfExport | src/App.jsx:189-215 | a normal place (whose id holds only finite numbers) written out as JSON and imported again is the same place |
| Import.ExportArray | src/App.jsx:189 | the exported array holds one object per place, at the same position |
| Import.ImportOfExportedCollection | src/App.jsx:189-215 | exporting a collection of normal places and importing the file gives back the same collection in the same order |
| Import.ReimportIsIdentity | src/App.jsx:202-215 | importing the written-out result of an import (with finite numbers) changes nothing |
| Import.ExportLosesNaN | src/App.jsx:397 | a latitude the panel set to NaN is read back from the export as 0 |
| Import.ExportDropsEmptyCode | src/App.jsx:369 | a code the panel cleared to "" is read back from the export as no code |
| Import.ExportTrimsName | src/App.jsx:363 | a name typed as " a" in the panel is read back from the export as "a" |
| TravelLog.FlipSwaps | src/App.jsx:267 | the row button's two statuses swap, and switching twice restores the status |
| TravelLog.ToggleAsWritten | src/App.jsx:267 | as written, the places carrying the selected id get the flip of the row's status, and every other place is unchanged |
| TravelLog.ToggleAsWrittenMissesRow | src/App.jsx:267 | with a visited place selected, pressing the button on a wishlist row changes nothing, and the row stays "wishlist" |
| TravelLog.ToggleAsWrittenUnselected | src/App.jsx:267 | with nothing selected, the button as written changes no place |
| TravelLog.ToggleRowStatus | src/App.jsx:267-268 | the corrected button's effect on the collection: one place per place; its meaning is stated by `ToggleRowFlips` |
| TravelLog.ToggleRowFlips | src/App.jsx:267 | as intended, the row's place gets the flipped status and every other place is unchanged |
| TravelLog.ToggleRowChangesRow | src/App.jsx:267 | as intended, pressing the button on a row of known status changes that row's status |
| TravelLog.TravelLog.constructor | src/App.jsx:72-76 | the stored collection is loaded, or else the sample places; nothing is selected; the last click starts at Budapest |
| TravelLog.TravelLog.Select | src/App.jsx:260 | selecting changes only the selected id |
| TravelLog.TravelLog.MapClick | src/App.jsx:292 | a map click changes only the last clicked position |
| TravelLog.TravelLog.AddPlaceFromForm | src/App.jsx:157-177 | with an empty trimmed name nothing changes; otherwise the new place is prepended to the old places, in their order; storage follows |
| TravelLog.TravelLog.UpdateSelected | src/App.jsx:179-181 | the places become `UpdateById` of the selected id; storage follows |
| TravelLog.TravelLog.RemovePlace | src/App.jsx:183-186 | the places become `RemoveById`; the selection is cleared if and only if it was that id |
| TravelLog.TravelLog.ImportJson | src/App.jsx:196-223 | an importable input (an array with no null element and no conversion error) replaces the collection, and anything else leaves it; the selection is kept |
| TravelLog.TravelLog.ToggleRow | src/App.jsx:267 | the corrected row button: the row's place is switched and the row becomes selected |
| PlaceSearch.Address | src/PlaceSearch.jsx:40 | a falsy address reads as an empty one, and otherwise its properties are read |
| PlaceSearch.NameSource | src/PlaceSearch.jsx:43 | the name text is a truthy `addr.name`, else a truthy `display_name`, else ""; it fails exactly when the chosen value is not text |
| PlaceSearch.CodeText | src/PlaceSearch.jsx:45 | a text `country_code` is upper-cased, a falsy one gives "", and a truthy non-text one throws |
| PlaceSearch.ToPlace | src/PlaceSearch.jsx:39-51 | the mapping throws exactly when the result is null, the name source or the code fails, or `Number` fails on `lat` or `lon`; the code is the upper-cased `country_code`; the country is a truthy `addr.country`, otherwise ""; the coordinates are `Number(lat)` and `Number(lon)` |
| PlaceSearch.CodeFromCountryCode | src/PlaceSearch.jsx:45 | the code is the upper-cased text `country_code`, "" without one, and a non-text one makes the mapping throw |
| PlaceSearch.NameFromAddress | src/PlaceSearch.jsx:43 | a text `addr.name` gives the name before its first comma; a truthy non-text one makes the mapping throw |
| PlaceSearch.NameFromDisplayName | src/PlaceSearch.jsx:43 | without a truthy `addr.name` the name is cut from a text `display_name`; a truthy non-text one makes the mapping throw |
| PlaceSearch.NullResultThrows | src/PlaceSearch.jsx:40 | a null result makes the mapping throw |
| PlaceSearch.UnconvertibleLatThrows | src/PlaceSearch.jsx:47 | a `lat` that is an object with its own `toString` key makes the mapping throw |
| PlaceSearch.ToPlaceTotalOnText | src/PlaceSearch.jsx:40-48 | a non-null result whose name, display name and code are text or missing, and whose `lat` and `lon` convert, never throws |
| PlaceSearch.CityFirstTruthy | src/PlaceSearch.jsx:41 | the city is the first truthy of `city`, `town`, `village`, `hamlet` and `state` |
| PlaceSearch.CityMissing | src/PlaceSearch.jsx:41 | without any of them the city is "" |
| PlaceSearch.NameBeforeComma | src/PlaceSearch.jsx:43 | the name is the comma-free text before the first comma of its source, or the display name when that text is empty |
| PlaceSearch.NoAddressDefaults | src/PlaceSearch.jsx:40-48 | for a non-null result without an address and with convertible coordinates, the country, code and city are all "" |

## Left out

- Rendering, the Leaflet map, markers and tiles, and the colours of
  `countryStyle` are user interface. Only the visited decision is modelled.
- The download of the boundary dataset is network I/O. The feature list is an
  input, and a missing one is `None`.
- Browser storage is I/O. Loading is modelled as a parameter of the constructor:
  the already parsed collection, or `None`. Saving is modelled as the `stored`
  field being set to the new collection after each change.
- `JSON.parse`, `FileReader` and the error alert are not modelled; the import
  takes the parsed value (`None` when parsing failed). The Blob download of the
  export is not modelled; `ToJson` is the object that is written out.
- `uuidv4` is a foreign call. Fresh ids are parameters.
- `Number(string)` and `String(number)` are parameters (`Coercion`), and so real
  floating-point parsing and printing are not modelled. `-0` is not told apart
  from `0`.
- Case mapping covers ASCII letters only. Other scripts are left as they are.
- Ids are compared as values. JavaScript's `===` compares object ids by identity.
- The form fields are taken to be present strings. A missing field, which would
  make `toString` throw, is not modelled. The form reset after adding a place is
  not modelled.
- The two coordinate inputs of the form (src/App.jsx:336-338) are not modelled.
  They set the last click position the same way a map click does.
- The `selected` lookup (src/App.jsx:109) and the details panel are left out. The
  panel's edits are modelled through `UpdateSelected`.
- `toPlace`'s `raw` field, the search debounce and the geocoder request are left
  out. Geocoder results are modelled as parsed JSON values.
- The password-reset screen, the build scripts and the remote persistence are
  left out, because none of them is part of the place collection.
- ImportOfExportedCollection: the round trip is proved for places that satisfy
  `Import.Normal`. The details panel can store places that are not normal, and
  those lose fields on export and import. For example, a NaN or infinite
  coordinate (src/App.jsx:397-398) is written as null and comes back as 0. A code
  cleared to "" (l.369) comes back as no code. A code typed as " fr" is stored as
  " FR" (l.369) and comes back as "FR". An untrimmed name, country or city
  (l.363-372) comes back trimmed. `ExportLosesNaN`, `ExportDropsEmptyCode` and
  `ExportTrimsName` each show one of these losses.
- CountryIndex.BuildIndex: a boundary property passed to `String` that is an
  object with its own `toString` key makes the source throw while the table is
  built or a feature is styled. The model converts it to "[object Object]",
  because the dataset is taken to be well formed.
- Views.FilterPlaces: the filter text takes `country` and `city` to be strings.
  JavaScript would write an undefined field as "undefined".

## Findings

| source | as written | input that shows it | evidently intended | confidence | as-written member | corrected member |
|---|---|---|---|---|---|---|
| src/App.jsx:267 | the row's status button calls `updateSelected`, which edits the place whose id is the *currently selected* id, with the flip of the row's status, and only then selects the row | place A is visited and selected, place B is on the wishlist; pressing B's button gives A "visited" again and leaves B on the wishlist, so nothing changes; with nothing selected no place changes | the row's own place switches between "visited" and "wishlist" | not executed | TravelLog.ToggleAsWrittenMissesRow | TravelLog.TravelLog.ToggleRow |
