# FreshSpot core, modelled in Dafny

FreshSpot lists Paris "cool spots" on one page: sports facilities, green spaces and drinking fountains,
taken from three Paris open-data datasets. A visitor can search them, filter them and page through them.
This project models the core of that application and proves properties of the model:

- **transformation**: the mapping of raw dataset records to spots, which includes title-casing, postal codes
  derived from "PARIS 5EME ARRONDISSEMENT" labels, fountain identifiers and coordinates. The combined
  collection keeps only located spots and keeps the first spot of each identifier.
- **the older loader**: it repeats that mapping inline, without title-casing and with "Oui" flags.
- **single-record lookup**: a dataset configuration, the lookup URL and the category ↔ dataset tables.
- **the two-slot in-memory cache**: it has a two-hour validity window.
- **free-text search**: accent and case folding, a synonym table, district extraction and the district
  test, and the keyword filter.
- **the SEO title and description of a spot, and lookup by identifier.**
- **the pagination bar**: the window of pages with ellipses, and links that keep the other query
  parameters. There is also the older bar with an eight-items-per-page item range.
- **the filter panel**: the selections, how each checkbox handler changes them, the query string it
  pushes, and how that query string is read back.

The modules follow the source files:

| module | file |
|---|---|
| `Types` | `src/types/spot.ts`, `src/types/api-data.ts`, `src/types/filters.ts` |
| `DataFetchers` | `src/lib/data-fetchers.ts` |
| `DataTransformers` | `src/lib/data-transformers.ts` |
| `FetchSpots` | `src/lib/fetch-spots.ts` |
| `FetchSpotById` | `src/lib/fetch-spot-by-id.ts` |
| `Cache` | `src/lib/cache.ts` |
| `Search` | `src/lib/search.ts` |
| `SpotUtils` | `src/lib/spot-utils.ts` |
| `Pagination` | `src/app/spots/components/pagination/SpotsPagination.tsx` |
| `LegacyPagination` | `src/app/spots/components/SpotsPagination.tsx` |
| `FilterPanel` | `src/app/spots/components/filters/Filter.tsx` |

Supporting modules model the JavaScript primitives the code relies on:

- `Wrappers`: `Option` and `Result`.
- `Seqs`: `Array.prototype.filter` and order-preserving subsequences.
- `Strings`:
  - `split`, `join`, `includes`, `startsWith` and `trim`;
  - `padStart(2, '0')`;
  - `parseInt` and `Number.prototype.toString` on integers.
- `TextCase`: `toLowerCase`, `toUpperCase`, and the accent fold of `normalize('NFD')` followed by removal
  of combining marks.
- `UrlParams`: `URLSearchParams`, as an ordered list of name/value pairs.

Effects become parameters:

- The current time is an argument wherever the cache reads the clock.
- An HTTP request is a function from the URL to an outcome.
- The three dataset responses of the older loader are arguments.
- `router.push` appends the URL to a list of pushed URLs held by the panel.
- The panel's React state becomes the fields of a `Panel` object.

The source's two `getVisiblePages` functions are identical. They are modelled once, by
`Pagination.GetVisiblePages` and its specification `Pagination.VisiblePages`, and both bars use them. The
two `transformDistrict` functions are identical too, in `src/lib/data-transformers.ts:30-40` and
`src/lib/fetch-spots.ts:13-23`. Both are modelled by `DataTransformers.TransformDistrict`.

The older loader `fetchAllSpots` (`src/lib/fetch-spots.ts`) differs from `transformAPIDataToSpots`:
it copies names, types and addresses as they are, without title-casing. For green spaces, it turns the
three opening flags into booleans that are true exactly on "Oui".

- `FetchSpots.ActivityMappersAgree`, `FetchSpots.GreenSpaceMappersAgree` and
  `FetchSpots.FountainMappersAgree` state the exact difference.
- `FetchSpots.AggregatorsAgree` proves that both loaders still keep the same identifiers and coordinates,
  in the same order.

## Model

| member | source | states |
|---|---|---|
| Types.CategoryCodeInjective | src/types/spot.ts:1 | the three category codes are distinct: two categories have the same code exactly when they are equal |
| Types.GeoOrOrigin | src/lib/data-transformers.ts:53-56 | a missing coordinate pair becomes (0, 0), and the result is (0, 0) only when the pair was missing or was itself (0, 0) |
| Types.DistrictString | src/lib/search.ts:87 | `String(spot.district \|\| '')` is empty exactly when the district is missing, the empty string or the number 0 |
| DataFetchers.DatasetIdsDistinct | src/lib/data-fetchers.ts:4-20 | the three dataset identifiers of `API_CONFIG` are pairwise distinct, so the dataset dispatches are unambiguous |
| DataFetchers.ExportUrl | src/lib/data-fetchers.ts:5-19 | definition of a dataset's export URL, `<base_url>/<dataset_id>/exports/json` |
| TextCase.LowerChar | src/lib/search.ts:8 | `toLowerCase` maps every upper-case letter to a lower-case one and leaves every other character unchanged |
| TextCase.UpperChar | src/lib/data-transformers.ts:20 | `toUpperCase` maps every lower-case letter to an upper-case one and leaves every other character unchanged |
| TextCase.LowerUpper | src/lib/data-transformers.ts:12-20 | lower-casing an upper-cased character gives the lower-case form of the original |
| TextCase.UpperLower | src/lib/data-transformers.ts:12-20 | upper-casing a lower-cased character gives the upper-case form of the original |
| TextCase.LowerIdempotent | src/lib/search.ts:8 | lower-casing twice is lower-casing once |
| TextCase.LowerSeq | src/lib/search.ts:8 | lower-casing a string keeps its length |
| TextCase.LowerSeqIsLowerCased | src/lib/search.ts:8 | a lower-cased string has no upper-case letter |
| TextCase.LowerSeqAppend | src/lib/data-transformers.ts:12 | lower-casing distributes over concatenation |
| TextCase.NormalizedChar | src/lib/search.ts:8-10 | after lower-casing and folding, a character that is not a combining mark is normalized: no upper-case letter, no accented letter |
| TextCase.StripAccent | src/lib/search.ts:9-10 | definition of the base letter left by NFD decomposition and mark removal; `NormalizedChar` states what a normalized character is |
| Strings.NatToString | src/lib/data-transformers.ts:36 | `toString` of a natural number gives a non-empty string of digits, one digit exactly below 10 and no leading zero otherwise |
| Strings.NatToStringRoundTrip | src/lib/data-transformers.ts:35-36 | the digits written by `toString` have the value of the number |
| Strings.IntToString | src/app/spots/components/pagination/SpotsPagination.tsx:35 | `toString` of an integer is non-empty and starts with '-' exactly for negative numbers |
| Strings.IntToStringRoundTrip | src/app/spots/components/pagination/SpotsPagination.tsx:35 | reading back a written page number with `parseInt` gives the number |
| Strings.ParseDecimalOfDigits | src/lib/data-transformers.ts:35 | `parseInt` of a non-empty digit string is its decimal value |
| Strings.PadStart2 | src/lib/data-transformers.ts:36 | `padStart(2, '0')` keeps the string as a suffix and puts only zeros in front, up to length 2 |
| Strings.ContainsIff | src/lib/search.ts:92 | `includes` holds exactly when the text occurs at some position |
| Strings.ContainsOccurs | src/lib/search.ts:92 | when `includes` holds, the text occurs at some position |
| Strings.ContainsAt | src/lib/search.ts:92 | a text occurring at some position is found by `includes` |
| Strings.Split | src/lib/data-transformers.ts:13 | `split` gives at least one piece; no piece holds the separator and every piece's characters come from the input |
| Strings.JoinSplit | src/lib/data-transformers.ts:13-22 | joining the pieces of a split with the same separator gives the input back |
| Strings.SplitJoin | src/app/spots/components/filters/Filter.tsx:37-39 | splitting a join of separator-free pieces gives the pieces back |
| Strings.Join | src/lib/search.ts:143 | definition of `join` with a one-character separator; `JoinSplit` and `SplitJoin` state that it inverts `Split` |
| Strings.TrimStart | src/lib/search.ts:118 | `trimStart` removes exactly the leading whitespace |
| Strings.TrimEnd | src/lib/search.ts:118 | `trimEnd` removes exactly the trailing whitespace |
| Strings.TrimEmptyIff | src/lib/search.ts:118 | `trim()` is empty exactly when the text is all whitespace |
| Strings.Trim | src/lib/search.ts:118-122 | definition of `trim` as trimming both ends; `TrimEmptyIff` states when the result is empty |
| Strings.LeadingDigits | src/lib/search.ts:65 | the digits `parseInt` reads are the longest prefix of digits |
| Strings.ParseIntTextOfDigits | src/lib/search.ts:65 | `parseInt(d).toString()` of a digit string is the decimal form of its value, so leading zeros are dropped |
| Strings.ParseIntText | src/lib/spot-utils.ts:39 | definition of the rendered `parseInt`; `ParseIntTextOfDigits` states that a digit string reads back without its leading zeros |
| Seqs.Filter | src/lib/data-transformers.ts:140 | `filter` keeps exactly the elements that pass, in their order |
| Seqs.FilterAppend | src/lib/search.ts:132 | filtering a concatenation is concatenating the filtered parts |
| Seqs.FilterAllPass | src/app/spots/components/filters/Filter.tsx:37 | filtering a list whose elements all pass leaves it unchanged |
| UrlParams.Get | src/app/spots/components/filters/Filter.tsx:37-40 | `get` finds nothing exactly when no pair has the name, and otherwise a value that some pair of that name holds |
| UrlParams.Delete | src/app/spots/components/filters/Filter.tsx:56 | `delete` keeps exactly the pairs of other names, in their order |
| UrlParams.Set | src/app/spots/components/filters/Filter.tsx:54 | `set` introduces no pair except the one set |
| UrlParams.GetSet | src/app/spots/components/filters/Filter.tsx:54 | after `set`, `get` returns the value set |
| UrlParams.SetNameOnce | src/app/spots/components/filters/Filter.tsx:54 | after `set`, the name occurs in exactly one pair, which holds the value set |
| UrlParams.GetDelete | src/app/spots/components/filters/Filter.tsx:56 | after `delete`, `get` finds nothing under that name |
| UrlParams.GetDeleteOther | src/app/spots/components/filters/Filter.tsx:81 | `delete` leaves every other name's value unchanged |
| UrlParams.GetSetOther | src/app/spots/components/filters/Filter.tsx:54 | `set` leaves every other name's value unchanged |
| UrlParams.DeleteTwice | src/app/spots/components/filters/Filter.tsx:81 | deleting a name twice is deleting it once |
| UrlParams.DeleteSet | src/app/spots/components/filters/Filter.tsx:54-56 | `set` changes only the pairs of its own name: deleting the name afterwards gives what deleting it before gives |
| UrlParams.SetWritable | src/app/spots/components/filters/Filter.tsx:54 | `set` with a writable pair keeps every pair writable |
| UrlParams.DeleteWritable | src/app/spots/components/filters/Filter.tsx:56 | `delete` keeps every pair writable |
| UrlParams.ParseSerialize | src/app/spots/components/filters/Filter.tsx:50 | `new URLSearchParams(params.toString())` gives back the same pairs, in the same order, when no name holds '=' and nothing holds '&' |
| UrlParams.QueryUrlReadsBack | src/app/spots/components/filters/Filter.tsx:83 | a `/spots?<query>` URL reads back as the parameters written into it |
| DataTransformers.CapitalizeWords | src/lib/data-transformers.ts:14-21 | the per-word step maps each word to exactly one word |
| DataTransformers.CapitalizeFirst | src/lib/data-transformers.ts:24 | `replace(/^./, …)` keeps the length of the string |
| DataTransformers.FormatToTitleCase | src/lib/data-transformers.ts:7-25 | the empty text stays empty |
| DataTransformers.TitleCaseOnlyChangesCase | src/lib/data-transformers.ts:7-25 | title-casing changes only letter case: same length and the same lower-case form as the input |
| DataTransformers.TitleCaseIdempotent | src/lib/data-transformers.ts:7-25 | title-casing a title-cased text changes nothing |
| DataTransformers.TitleCaseFirstCharacter | src/lib/data-transformers.ts:23-24 | the first character is upper-cased even for a stop word, unless it is a line terminator, which `.` does not match |
| DataTransformers.TitleCaseWords | src/lib/data-transformers.ts:11-22 | the words of the result are the lower-cased words of the input, each capitalised unless it is a stop word, and the first always capitalised |
| DataTransformers.CapitalizeWordLower | src/lib/data-transformers.ts:16-20 | capitalising a lower-case word changes only its case |
| DataTransformers.CapitalizeWordNoSpace | src/lib/data-transformers.ts:16-20 | capitalising a word introduces no space, so the words split back apart |
| DataTransformers.DistrictOfLabel | src/lib/data-transformers.ts:33 | definition of the anchored, case-insensitive label match; `DistrictOfLabelSound`, `DistrictOfLabelComplete` and `DistrictOfLabelIff` state exactly which labels match and with which digits |
| DataTransformers.DistrictOfLabelSound | src/lib/data-transformers.ts:33 | a label that matches the pattern is, ignoring ASCII case, "PARIS <digits>ER ARRONDISSEMENT" or "PARIS <digits>EME ARRONDISSEMENT" |
| DataTransformers.DistrictOfLabelComplete | src/lib/data-transformers.ts:33 | every such label matches, with its digits captured |
| DataTransformers.DistrictOfLabelIff | src/lib/data-transformers.ts:33 | the pattern captures the digits `d` exactly when the label is one of the two forms with `d` |
| DataTransformers.TransformDistrict | src/lib/data-transformers.ts:30-40 | a value that is not a district label is returned as it is, the empty value included |
| DataTransformers.TransformDistrictOfLabel | src/lib/data-transformers.ts:33-37 | a label with any non-empty run of digits becomes "750" followed by the number those digits denote, leading zeros dropped and padded to two digits; below one hundred that is a five-character code; the number is written exactly, which matches `parseInt` only below 2^53 (see "## Left out") |
| DataTransformers.ParisLabelUpper | src/lib/data-transformers.ts:33 | a label already written in upper case matches the case-insensitive pattern as it is |
| DataTransformers.FirstDistrictCode | src/lib/data-transformers.ts:33-37 | every label of the first district, whatever its leading zeros, becomes 75001 |
| DataTransformers.TransformDistrictLeadingZeros | src/lib/data-transformers.ts:33-37 | "PARIS 001ER ARRONDISSEMENT" becomes 75001 |
| DataTransformers.TwoDigitsBelowHundred | src/lib/data-transformers.ts:35 | one or two digits read as a number below 100 |
| DataTransformers.PostalCodeLength | src/lib/data-transformers.ts:36 | "750" plus a padded number below 100 has five characters |
| DataTransformers.NotLabelStartingWithDigit | src/lib/data-transformers.ts:33 | a value starting with a digit, such as a postal code, is not a label |
| DataTransformers.TransformDistrictIdempotent | src/lib/data-transformers.ts:30-40 | transforming a district twice is transforming it once |
| DataTransformers.ActivityToSpot | src/lib/data-transformers.ts:45-70 | identifier, category and district are copied; name, type and address are the title-cased fields and keep their lower-case form; the schedule holds the record's hours and status, the paid flag is the record's `payant`, and the fields of other categories are absent; the spot has coordinates exactly when the record has a non-zero pair |
| DataTransformers.GreenSpaceToSpot | src/lib/data-transformers.ts:75-103 | the same for green spaces: the title-cased name, type and address, the schedule, the 24-hour, heatwave and summer-night flags and the category label are taken from the record, and the paid flag, city, model and availability are absent |
| DataTransformers.FountainId | src/lib/data-transformers.ts:110 | with a `gid`, the identifier is its decimal text and reads back as that number; without one it is "fountain-" followed by the latitude and the longitude, each "undefined" without a location |
| DataTransformers.FountainToSpot | src/lib/data-transformers.ts:108-123 | the fountain spot has the fixed name, the title-cased street, the transformed commune as both its district and its city, and the record's model and availability; type, schedule, flags and category label are absent; it has coordinates exactly when the record has a non-zero pair |
| DataTransformers.FountainExample | src/lib/data-transformers.ts:108-123 | a fountain with gid 42 in "PARIS 1ER ARRONDISSEMENT" whose availability is "OUI" gets the identifier "42", the district and city 75001 and the availability "OUI" |
| DataTransformers.FountainIdsDistinct | src/lib/data-transformers.ts:110 | a fountain with a `gid` never shares its identifier with a fountain that has another `gid` or none |
| DataTransformers.FindIndexById | src/lib/data-transformers.ts:143 | `findIndex` returns the first position holding the identifier, or -1 exactly when no position holds it |
| DataTransformers.FindIndexFrom | src/lib/data-transformers.ts:143 | the same search started at a given position |
| DataTransformers.KeepFirstFrom | src/lib/data-transformers.ts:143 | the de-duplication of a suffix is no longer than the suffix |
| DataTransformers.KeepFirstById | src/lib/data-transformers.ts:143 | definition of the `findIndex` dedup; `KeepFirstSubseq`, `KeepFirstSound`, `KeepFirstKeeps`, `KeepFirstDistinct` and `KeepFirstComplete` state that it keeps the first spot of each identifier, in order |
| DataTransformers.KeepFirstSubseq | src/lib/data-transformers.ts:143 | de-duplication keeps spots in their order |
| DataTransformers.KeepFirstSound | src/lib/data-transformers.ts:143 | every kept spot is the first one with its identifier |
| DataTransformers.KeepFirstKeeps | src/lib/data-transformers.ts:143 | every spot that is the first with its identifier is kept |
| DataTransformers.KeepFirstMembers | src/lib/data-transformers.ts:143 | a spot is kept exactly when it is the first one with its identifier |
| DataTransformers.FirstIdNotKeptAgain | src/lib/data-transformers.ts:143 | once the first spot of an identifier is kept, no later spot with that identifier is |
| DataTransformers.KeepFirstDistinctIds | src/lib/data-transformers.ts:143 | the kept spots have pairwise distinct identifiers |
| DataTransformers.KeepFirstComplete | src/lib/data-transformers.ts:143 | every identifier of the input survives de-duplication |
| DataTransformers.KeepFirstDistinct | src/lib/data-transformers.ts:143 | a list whose identifiers are already distinct is kept whole |
| DataTransformers.Consolidate | src/lib/data-transformers.ts:139-143 | definition: located spots, first of each identifier; its properties are `ConsolidateOrdered`, `ConsolidateLocatedAndDistinct` and `ConsolidateComplete` |
| DataTransformers.ConsolidateOrdered | src/lib/data-transformers.ts:140-143 | location filtering followed by de-duplication keeps spots in their order |
| DataTransformers.ConsolidateLocatedAndDistinct | src/lib/data-transformers.ts:140-143 | the result holds only located spots of the input, with distinct identifiers |
| DataTransformers.ConsolidateComplete | src/lib/data-transformers.ts:140-143 | every located input spot's identifier is in the result |
| DataTransformers.ConsolidateSame | src/lib/data-transformers.ts:140-143 | two lists that agree on identifiers and coordinates consolidate to lists that agree on them too |
| DataTransformers.TransformAPIDataToSpots | src/lib/data-transformers.ts:128-146 | definition: the three mapped datasets, in order, consolidated; its properties are `AggregateOrdered`, `AggregateLocatedAndDistinct` and `AggregateComplete` |
| DataTransformers.AggregateOrdered | src/lib/data-transformers.ts:128-146 | the combined collection is an ordered subsequence of activities, then green spaces, then fountains |
| DataTransformers.AggregateLocatedAndDistinct | src/lib/data-transformers.ts:128-146 | every spot of the combined collection has coordinates and no two share an identifier |
| DataTransformers.AggregateComplete | src/lib/data-transformers.ts:128-146 | every located mapped spot's identifier is in the combined collection |
| DataTransformers.AggregateDropsUnlocatedActivity | src/lib/data-transformers.ts:128-146 | an activity without coordinates is never in the combined collection |
| FetchSpots.LegacyActivityToSpot | src/lib/fetch-spots.ts:49-74 | the older loader copies identifier, name, type and address as they are, and keeps coordinates exactly when the record has a non-zero pair |
| FetchSpots.OuiFlag | src/lib/fetch-spots.ts:99 | a flag is true exactly when the field is "Oui" |
| FetchSpots.LegacyGreenSpaceToSpot | src/lib/fetch-spots.ts:76-104 | the same for green spaces |
| FetchSpots.GreenSpaceFlags | src/lib/fetch-spots.ts:99-101 | each of the three opening flags is a boolean that is true exactly on "Oui" |
| FetchSpots.LegacyFountainToSpot | src/lib/fetch-spots.ts:106-121 | the fountain keeps its street as written and gets the transformed commune as district and city |
| FetchSpots.ActivityMappersAgree | src/lib/fetch-spots.ts:49-74 | the two activity mappers differ only in the title-casing of name, type and address |
| FetchSpots.GreenSpaceMappersAgree | src/lib/fetch-spots.ts:76-104 | the two green-space mappers differ only in title-casing and in the form of the three flags |
| FetchSpots.FountainMappersAgree | src/lib/fetch-spots.ts:106-121 | the two fountain mappers differ only in the title-casing of the street |
| FetchSpots.FetchAllSpots | src/lib/fetch-spots.ts:25-134 | a failed response, or one whose body is not a list, gives the empty collection |
| FetchSpots.FetchAllSpotsLocatedAndDistinct | src/lib/fetch-spots.ts:123-129 | every loaded spot has coordinates and no two share an identifier |
| FetchSpots.FetchAllSpotsOrdered | src/lib/fetch-spots.ts:123-129 | the loaded spots are an ordered subsequence of the mapped records |
| FetchSpots.FetchAllSpotsComplete | src/lib/fetch-spots.ts:123-129 | every located mapped record's identifier is loaded |
| FetchSpots.FetchAllSpotsDropsUnlocated | src/lib/fetch-spots.ts:125 | a fountain without coordinates is never loaded |
| FetchSpots.MappingsSameIdsAndGeo | src/lib/fetch-spots.ts:49-123 | both loaders map the records to the same identifiers and coordinates, in the same order |
| FetchSpots.AggregatorsAgree | src/lib/fetch-spots.ts:123-129 | the older loader and `transformAPIDataToSpots` keep the same identifiers and coordinates, in the same order |
| FetchSpotById.GetDatasetConfig | src/lib/fetch-spot-by-id.ts:9-19 | a configuration is found exactly for the three dataset identifiers, and it is the one with that identifier |
| FetchSpotById.GetDatasetIdFromCategory | src/lib/fetch-spot-by-id.ts:69-80 | a dataset is found exactly for the three category codes; any other category is the error "Unknown category: …" |
| FetchSpotById.CategoryDatasetRoundTrip | src/lib/fetch-spot-by-id.ts:69-80 | a category's dataset identifier leads back to that dataset's configuration |
| FetchSpotById.DatasetOfInjective | src/lib/fetch-spot-by-id.ts:69-80 | distinct categories have distinct datasets |
| FetchSpotById.LookupField | src/lib/fetch-spot-by-id.ts:32 | fountains are looked up by `gid` and the other datasets by `identifiant` |
| FetchSpotById.IdField | src/lib/fetch-spot-by-id.ts:32 | definition: `gid` for fountains, `identifiant` otherwise |
| FetchSpotById.SearchUrl | src/lib/fetch-spot-by-id.ts:33 | definition of the lookup URL; `SearchUrlInjective` states that different records get different URLs |
| FetchSpotById.SearchUrlInjective | src/lib/fetch-spot-by-id.ts:33 | different record identifiers give different lookup URLs |
| FetchSpotById.FirstResult | src/lib/fetch-spot-by-id.ts:37-48 | a record is taken exactly when the response is successful and its `results` list is present and non-empty |
| FetchSpotById.MapRecord | src/lib/fetch-spot-by-id.ts:50-59 | definition: the mapper of the dataset, none for an unknown dataset; `FetchedSpotCategory` and `FetchFountainRecord` state what it yields |
| FetchSpotById.FetchSpotByDatasetAndId | src/lib/fetch-spot-by-id.ts:24-64 | a spot is returned exactly when the dataset is known and the lookup URL answers with at least one record, and then it is the first record through that dataset's mapper |
| FetchSpotById.UnknownDatasetNoRequest | src/lib/fetch-spot-by-id.ts:26-30 | an unknown dataset gives null whatever the network would answer |
| FetchSpotById.FetchedSpotCategory | src/lib/fetch-spot-by-id.ts:48-59 | a fetched spot's category leads back to the dataset it was fetched from |
| FetchSpotById.FetchFountainRecord | src/lib/fetch-spot-by-id.ts:55-56 | a fountain lookup that is answered returns the first record mapped as a fountain |
| Cache.IsCacheValid | src/lib/cache.ts:25-28 | definition: an entry exists and is younger than the duration; `ReadAfterWrite` and `ExpiryIsStrict` state the window |
| Cache.Fresh | src/lib/cache.ts:43-45 | definition of what a getter returns for a slot; `ReadAfterWrite`, `ExpiredStaysExpired` and `NeverWrittenMisses` state its behaviour |
| Cache.ReadAfterWrite | src/lib/cache.ts:25-28 | a written entry is returned exactly while less than two hours have passed since it was written |
| Cache.ExpiryIsStrict | src/lib/cache.ts:27 | an entry is still valid one millisecond before two hours and expired at exactly two hours |
| Cache.ExpiredStaysExpired | src/lib/cache.ts:25-28 | once expired, an entry stays expired |
| Cache.ReplaySlots | src/lib/cache.ts:33-69 | after any sequence of operations, each slot holds the entry of its own last write, or none after a clear |
| Cache.ReplayAppendOne | src/lib/cache.ts:33-69 | replaying one more operation applies it to the previous state |
| Cache.NeverWrittenMisses | src/lib/cache.ts:43-45 | spots are never found when they were never written |
| Cache.Caches.constructor | src/lib/cache.ts:19-20 | both slots start empty |
| Cache.Caches.CacheSpots | src/lib/cache.ts:33-38 | the spots slot holds the list and its time; the other slot is unchanged |
| Cache.Caches.GetCachedSpots | src/lib/cache.ts:43-45 | the stored spots are returned exactly when the slot is filled and fresh |
| Cache.Caches.CacheFilterOptions | src/lib/cache.ts:50-55 | the options slot holds the options and their time; the other slot is unchanged |
| Cache.Caches.GetCachedFilterOptions | src/lib/cache.ts:60-62 | the stored options are returned exactly when the slot is filled and fresh |
| Cache.Caches.ClearCaches | src/lib/cache.ts:67-69 | both slots are empty |
| Cache.Session | src/lib/cache.ts:33-45 | a write followed by a read hits exactly within two hours; the other slot misses, and a read after clearing misses |
| Search.NormalizeString | src/lib/search.ts:6-11 | the normalized text is no longer than the input and has no upper-case or accented letter and no combining mark |
| Search.NormalizeAppend | src/lib/search.ts:6-11 | normalizing distributes over concatenation |
| Search.NormalizeNormalized | src/lib/search.ts:6-11 | already normalized text is unchanged |
| Search.NormalizeIdempotent | src/lib/search.ts:6-11 | normalizing twice is normalizing once |
| Search.NormalizeDigits | src/lib/search.ts:6-11 | digits are unchanged by normalizing |
| Search.TranslateCategoryToFrench | src/lib/search.ts:16-23 | every category has a non-empty French text |
| Search.AppendSynonyms | src/lib/search.ts:46-53 | the loop returns the query followed by the values of every key contained in the normalized query, in table order |
| Search.GenerateSynonyms | src/lib/search.ts:28-56 | the result is the query followed by its synonyms from the table |
| Search.MatchedValuesMembers | src/lib/search.ts:49-53 | a value is added exactly when it belongs to a key whose normalized form the normalized query contains |
| Search.Synonyms | src/lib/search.ts:28-56 | definition of what `generateSynonyms` returns; `GenerateSynonyms`, `SynonymsMembers` and `SynonymOfKey` state it |
| Search.SynonymsMembers | src/lib/search.ts:28-56 | a variation is the query itself or a value of a key contained in the normalized query |
| Search.SynonymOfKey | src/lib/search.ts:49-53 | a query containing a key gets all of that key's values |
| Search.DigitGroupAt | src/lib/search.ts:69 | the greedy `\d{1,2}` takes up to two digits and only digits |
| Search.SkipWhitespace | src/lib/search.ts:75 | `\s*` skips exactly the whitespace run |
| Search.CaptureAt | src/lib/search.ts:63-78 | a capture has at most two digits |
| Search.FirstMatch | src/lib/search.ts:63-78 | a pattern matches first at the leftmost position where it can, and nowhere when no position fits |
| Search.Captured | src/lib/search.ts:63-78 | a captured district number has one or two digits |
| Search.PostalDigitsText | src/lib/search.ts:65 | the two digits after "750" are read back without a leading zero |
| Search.ExtractDistrictNumber | src/lib/search.ts:61-81 | a district number has one or two digits, and none is found exactly when no pattern matches anywhere; which number is found is stated by `PostalCodeWins`, `OrdinalDistrict` and `ArrondissementDistrict` |
| Search.NoDigitsNoDistrict | src/lib/search.ts:61-81 | a query without digits has no district |
| Search.PostalCodeDistrict | src/lib/search.ts:63-66 | a postal code "750dd" gives the district number of dd without a leading zero |
| Search.FirstMatchIs | src/lib/search.ts:63-78 | `match` finds the position that matches with no match before it |
| Search.PostalCodeWins | src/lib/search.ts:63-66 | a postal code "750dd" names district dd whatever ordinal or "arrondissement" word comes before or after it |
| Search.OrdinalDistrict | src/lib/search.ts:69-72 | without a postal code, an ordinal `<d>e`, `<d>eme`, `<d>ème` or `<d>er` after digit-free text names district d, whatever follows it |
| Search.ArrondissementDistrict | src/lib/search.ts:75-78 | without other digits, `<d>` followed by white space and "arrondissement" names district d |
| Search.PostalCodeBeatsOrdinal | src/lib/search.ts:63-72 | "3e 75015" names district 15: the postal code is tried before the ordinal |
| Search.OrdinalBeatsArrondissement | src/lib/search.ts:69-78 | `<d>e <n> arrondissement` names district d: the ordinal is tried before the "arrondissement" form |
| Search.IsSpotInDistrict | src/lib/search.ts:86-97 | definition of the district test; `IsSpotInDistrictWithoutGraveForm`, `PostalCodeInDistrict` and `LabelledFountainInDistrict` state when it holds |
| Search.IsSpotInDistrictWithoutGraveForm | src/lib/search.ts:86-97 | a spot is in the district exactly when its normalized district contains the postal code, "Ne arrondissement" or "Neme arrondissement"; the "ème" form can never match normalized text |
| Search.PostalCodeInDistrict | src/lib/search.ts:86-97 | a spot whose district is the postal code "750" plus the padded number is in that district |
| Search.LabelledFountainInDistrict | src/lib/search.ts:86-97 | a fountain whose commune is a district label is found in that district |
| Search.IsDistrictKeyword | src/lib/search.ts:104-110 | definition of the district-term test; `RemoveDistrictKeywords` states that exactly the non-district keywords are kept |
| Search.RemoveDistrictKeywords | src/lib/search.ts:102-112 | exactly the keywords that are not district terms are kept, in their order |
| Search.Keywords | src/lib/search.ts:124 | keywords are non-empty and hold no space |
| Search.KeywordsOfWord | src/lib/search.ts:124 | a single word is its own single keyword |
| Search.PlanOf | src/lib/search.ts:122-130 | with a district, no content keyword is a district term; no content keyword is empty |
| Search.OneWordPlan | src/lib/search.ts:122-130 | a one-word query without digits searches for that normalized word with no district |
| Search.SearchableText | src/lib/search.ts:134-143 | definition of the normalized, space-joined searchable fields |
| Search.Matches | src/lib/search.ts:145-172 | definition of the per-spot decision; `SearchSpots` keeps exactly the spots it accepts, and `MatchesOneWord` states it for one-word queries |
| Search.SearchSpots | src/lib/search.ts:117-174 | a blank query keeps every spot; otherwise exactly the matching spots are kept, in their order |
| Search.SearchAppend | src/lib/search.ts:132 | searching a concatenation is concatenating the searches |
| Search.EmptyPhraseKeepsAll | src/lib/search.ts:143-148 | a query that normalizes to nothing keeps every spot |
| Search.SearchIgnoresCaseAndAccents | src/lib/search.ts:122-130 | two digit-free queries that normalize to the same text find the same spots |
| Search.DistrictOnlyQuery | src/lib/search.ts:145-172 | a query made only of district terms keeps the spots that contain the phrase or lie in the district |
| Search.PostalCodeQuery | src/lib/search.ts:117-172 | a postal-code query keeps the spots that contain it or lie in its district |
| Search.OrdinalQueryText | src/lib/search.ts:102-130 | "<n>e arrondissement" is its own trim and normal form, names district n and holds only district terms |
| Search.DistrictOnlyNormalQuery | src/lib/search.ts:117-172 | a trimmed, normalized query of district terms only keeps the spots that contain it or lie in its district |
| Search.OrdinalQuery | src/lib/search.ts:117-172 | "<n>e arrondissement" keeps exactly the spots that contain it or lie in district n |
| Search.PostalAndOrdinalAgree | src/lib/search.ts:117-172 | "750dd" and "<dd without leading zero>e arrondissement" keep the same spots, except spots whose text contains either phrase |
| Search.KeywordFoundByVariation | src/lib/search.ts:159-166 | a keyword is found when any non-empty normalized variation occurs in the spot's text |
| Search.MatchesOneWord | src/lib/search.ts:145-169 | a spot whose text contains a keyword or one of its variations matches a one-word plan |
| Search.OneWordQueryFinds | src/lib/search.ts:117-169 | such a spot is found by the one-word query |
| Search.SynonymFound | src/lib/search.ts:117-169 | a spot whose text contains a synonym of a key named in the query is found |
| SpotUtils.GetSpotById | src/lib/spot-utils.ts:7-14 | `find` returns the first spot with the identifier, and null exactly when none has it |
| SpotUtils.GetSpotByIdUnique | src/lib/spot-utils.ts:11 | in a collection of distinct identifiers, each spot is found by its own identifier |
| SpotUtils.CategoryTitle | src/lib/spot-utils.ts:20-26 | every category has a non-empty label, and none falls back to 'Spot' |
| SpotUtils.GenerateSpotTitle | src/lib/spot-utils.ts:19-28 | definition of the title; `TitleShape` and `TitleDeterminesCategory` state its form and what it reveals |
| SpotUtils.TitleShape | src/lib/spot-utils.ts:27 | the title is "<name> - <label> à Paris" |
| SpotUtils.TitleDeterminesCategory | src/lib/spot-utils.ts:19-28 | for two spots with the same name, the titles are equal exactly when the categories are |
| SpotUtils.DistrictPhrase | src/lib/spot-utils.ts:37-42 | definition of the district part of the description; `DescriptionOfPostalCode` and `DescriptionOfOtherDistrict` state it |
| SpotUtils.GenerateSpotDescription | src/lib/spot-utils.ts:33-47 | the description begins "Découvrez <name>" |
| SpotUtils.DescriptionWithoutDistrict | src/lib/spot-utils.ts:46 | a spot with no district (missing, empty or 0) gets the fixed "fraîcheur" sentence |
| SpotUtils.DescriptionOfOtherDistrict | src/lib/spot-utils.ts:42-43 | a district that is not a postal code is named after "à" |
| SpotUtils.DescriptionOfPostalCode | src/lib/spot-utils.ts:37-43 | a postal code "750dd" gives "dans le <n>er arrondissement" for 01 and "<n>e" otherwise |
| SpotUtils.PaddedDistrictNumber | src/lib/spot-utils.ts:39-40 | the padded district number has two digits, reads back as the number and is "01" exactly for 1 |
| SpotUtils.FountainDescription | src/lib/spot-utils.ts:33-47 | a fountain with a district label is described by its district number, "1er" for the first district and "<n>e" otherwise |
| Pagination.RangeStart | src/app/spots/components/pagination/SpotsPagination.tsx:51 | the window starts at page 2 or two pages before the current one, whichever is later |
| Pagination.RangeEnd | src/app/spots/components/pagination/SpotsPagination.tsx:52 | the window ends at the last page but one or two pages after the current one, whichever is earlier |
| Pagination.Range | src/app/spots/components/pagination/SpotsPagination.tsx:60-62 | definition of the pages of the window; `RangeIndex` states that each page appears once, in order |
| Pagination.RangeIndex | src/app/spots/components/pagination/SpotsPagination.tsx:60-62 | the window lists the consecutive pages from its start to its end |
| Pagination.VisiblePages | src/app/spots/components/pagination/SpotsPagination.tsx:48-73 | definition of the page list; the `VisiblePages…`, `Ellipsis…` and `NoPageLost` lemmas state its properties |
| Pagination.GetVisiblePages | src/app/spots/components/pagination/SpotsPagination.tsx:48-73 | the loop builds exactly page 1, an optional ellipsis, the window, an optional ellipsis and the last page |
| Pagination.VisiblePagesEnds | src/app/spots/components/pagination/SpotsPagination.tsx:48-73 | with more than one page, the list starts at page 1, ends at the last page, holds 2 to 9 entries, and the window has at most 5 pages |
| Pagination.VisiblePagesMembers | src/app/spots/components/pagination/SpotsPagination.tsx:48-73 | a page is shown exactly when it is the first, the last, or within two of the current page |
| Pagination.CurrentPageVisible | src/app/spots/components/pagination/SpotsPagination.tsx:48-73 | the current page is always shown |
| Pagination.VisiblePagesIndex | src/app/spots/components/pagination/SpotsPagination.tsx:48-73 | each position of the list holds the expected page |
| Pagination.VisiblePagesIncreasing | src/app/spots/components/pagination/SpotsPagination.tsx:48-73 | the pages shown strictly increase and no page is shown twice |
| Pagination.EllipsisIff | src/app/spots/components/pagination/SpotsPagination.tsx:56-66 | an ellipsis appears exactly when the window does not reach page 2 or the last page but one |
| Pagination.EllipsisPlaces | src/app/spots/components/pagination/SpotsPagination.tsx:56-66 | an ellipsis stands only directly after page 1 or directly before the last page |
| Pagination.NoPageLost | src/app/spots/components/pagination/SpotsPagination.tsx:48-73 | neighbouring page entries in the list are consecutive page numbers |
| Pagination.EllipsisHidesPages | src/app/spots/components/pagination/SpotsPagination.tsx:56-66 | an ellipsis always stands between two page entries and hides at least one page |
| Pagination.VisiblePagesWindow | src/app/spots/components/pagination/SpotsPagination.tsx:60-62 | the entries after the head are the window's pages, in order |
| Pagination.IntToStringWritable | src/app/spots/components/pagination/SpotsPagination.tsx:35 | a page number written as text holds no '&' |
| Pagination.CreatePageUrl | src/app/spots/components/pagination/SpotsPagination.tsx:33-37 | definition of the page link; `CreatePageUrlReadsBack` states that it keeps the other parameters and sets the page |
| Pagination.CreatePageUrlReadsBack | src/app/spots/components/pagination/SpotsPagination.tsx:33-37 | a page link reads back as the current parameters with `page` set to the number; every other parameter keeps its value |
| Pagination.Render | src/app/spots/components/pagination/SpotsPagination.tsx:45-134 | nothing is shown exactly when there is at most one page; otherwise one entry per visible page |
| Pagination.OneActiveEntry | src/app/spots/components/pagination/SpotsPagination.tsx:110 | exactly one entry is active, and it links to the current page |
| Pagination.PreviousNextLinks | src/app/spots/components/pagination/SpotsPagination.tsx:40-43 | the previous and next links are shown exactly when requested, and they point to the pages before and after |
| LegacyPagination.CreateLegacyPageUrl | src/app/spots/components/SpotsPagination.tsx:33-35 | definition of the legacy page link; `LegacyPageUrlReadsBack` states that only the page is kept |
| LegacyPagination.LegacyPageUrlReadsBack | src/app/spots/components/SpotsPagination.tsx:33-35 | an older page link reads back as the `page` parameter alone, with the number |
| LegacyPagination.ItemRange | src/app/spots/components/SpotsPagination.tsx:81-82 | the last item shown is within the collection, and fewer than eight positions separate first and last |
| LegacyPagination.ItemRangeCount | src/app/spots/components/SpotsPagination.tsx:81-82 | a page within the collection shows between one and eight items, the remainder on the last page; a page past the end shows an empty range |
| LegacyPagination.ItemRangesTile | src/app/spots/components/SpotsPagination.tsx:81-82 | after a full page, the next page starts right after the last item shown |
| LegacyPagination.LegacyRender | src/app/spots/components/SpotsPagination.tsx:46-145 | nothing is shown exactly when there is at most one page |
| LegacyPagination.SameWindowAsLater | src/app/spots/components/SpotsPagination.tsx:51-76 | the older bar shows the same pages, ellipses and active page as the later one |
| LegacyPagination.LegacyPreviousNext | src/app/spots/components/SpotsPagination.tsx:38-44 | the previous and next links are shown exactly when requested, and they point to the neighbouring page numbers alone |
| FilterPanel.HasActiveFilters | src/app/spots/components/filters/Filter.tsx:168 | definition; `ActiveIffSelected` states when it holds |
| FilterPanel.ActiveIffSelected | src/app/spots/components/filters/Filter.tsx:168 | filters are active exactly when something is selected |
| FilterPanel.ParseSelections | src/app/spots/components/filters/Filter.tsx:36-46 | definition of the selections read from the URL; `SelectionsRoundTrip` states that written selections read back |
| FilterPanel.ListParam | src/app/spots/components/filters/Filter.tsx:37-39 | a missing parameter gives no selection, and every item read is non-empty and comma-free |
| FilterPanel.ListParamOfValue | src/app/spots/components/filters/Filter.tsx:37-39 | the value written for a list is read back as that list |
| FilterPanel.ListRoundTrip | src/app/spots/components/filters/Filter.tsx:37-54 | joining items with ',' and splitting them again, dropping empty items, gives the items back |
| FilterPanel.SetListGet | src/app/spots/components/filters/Filter.tsx:53-71 | a list parameter holds its joined items, or is absent for an empty list; other names are unchanged |
| FilterPanel.SetPaidGet | src/app/spots/components/filters/Filter.tsx:74-78 | `paid` holds the value, or is absent when the value is empty; other names are unchanged |
| FilterPanel.UpdatedParams | src/app/spots/components/filters/Filter.tsx:49-83 | definition of the parameters `updateUrl` writes; `UpdatedParamsGet` states what each parameter then holds |
| FilterPanel.UpdatedParamsGet | src/app/spots/components/filters/Filter.tsx:49-82 | the new query holds each selection under its name and no `page`; every other parameter keeps its value |
| FilterPanel.SetListWritable | src/app/spots/components/filters/Filter.tsx:53-71 | setting a list of storable items keeps the query writable |
| FilterPanel.UpdatedParamsWritable | src/app/spots/components/filters/Filter.tsx:49-82 | updating a writable query with storable selections keeps it writable |
| FilterPanel.SpotsUrl | src/app/spots/components/filters/Filter.tsx:83 | definition of a listing URL; `SpotsUrlReadsBack` states that it reads back as its parameters |
| FilterPanel.SpotsUrlReadsBack | src/app/spots/components/filters/Filter.tsx:83 | `/spots`, with `?` and the query only when the query is non-empty, reads back as the query |
| FilterPanel.UpdatedUrl | src/app/spots/components/filters/Filter.tsx:83-84 | definition of the pushed URL; `UpdatedUrlReadsBack` states what it reads back as |
| FilterPanel.UpdatedUrlReadsBack | src/app/spots/components/filters/Filter.tsx:49-85 | the pushed URL reads back as the updated query |
| FilterPanel.SelectionsRoundTrip | src/app/spots/components/filters/Filter.tsx:37-85 | the selections written into the URL are read back unchanged by the parser |
| FilterPanel.FindTypeOption | src/app/spots/components/filters/Filter.tsx:97 | `find` returns the first type option with the value, and nothing exactly when none has it |
| FilterPanel.CascadeTypes | src/app/spots/components/filters/Filter.tsx:96-100 | unchecking a category keeps, in order, exactly the selected types that do not belong to it |
| FilterPanel.Without | src/app/spots/components/filters/Filter.tsx:108 | unchecking keeps, in order, exactly the other values |
| FilterPanel.CategoryChanged | src/app/spots/components/filters/Filter.tsx:87-105 | definition of `handleCategoryChange`'s new selections; `CheckAppends`, `UncheckCategory` and `CheckThenUncheck` state it |
| FilterPanel.DistrictChanged | src/app/spots/components/filters/Filter.tsx:107-112 | definition of `handleDistrictChange`'s new selections; `CheckAppends` and `CheckThenUncheck` state it |
| FilterPanel.TypeChanged | src/app/spots/components/filters/Filter.tsx:114-119 | definition of `handleTypeChange`'s new selections; `CheckAppends` and `CheckThenUncheck` state it |
| FilterPanel.PaidChanged | src/app/spots/components/filters/Filter.tsx:121-125 | definition of `handlePaidChange`'s new selections; `PaidSingleValued` states that a later check replaces the value and unchecking clears it |
| FilterPanel.Removed | src/app/spots/components/filters/Filter.tsx:127-156 | definition of `removeFilter`'s new selections; `RemoveIsUncheck` states that it equals unchecking |
| FilterPanel.UncheckCategory | src/app/spots/components/filters/Filter.tsx:93-101 | unchecking a category removes it and the types that belong to it, and changes nothing else |
| FilterPanel.CheckAppends | src/app/spots/components/filters/Filter.tsx:87-119 | checking appends the value to its list and changes nothing else |
| FilterPanel.CheckThenUncheck | src/app/spots/components/filters/Filter.tsx:107-119 | checking and then unchecking a district or type is the same as unchecking it; afterwards it is not selected |
| FilterPanel.PaidSingleValued | src/app/spots/components/filters/Filter.tsx:121-125 | the paid filter holds a single value: checking replaces it and unchecking clears it |
| FilterPanel.RemoveIsUncheck | src/app/spots/components/filters/Filter.tsx:127-150 | removing a filter chip is the same as unchecking it |
| FilterPanel.AvailableTypes | src/app/spots/components/filters/Filter.tsx:161-166 | with no category selected every type is offered; otherwise exactly the types of selected categories, in order |
| FilterPanel.Panel.constructor | src/app/spots/components/filters/Filter.tsx:30-33 | the panel starts with nothing selected and nothing pushed |
| FilterPanel.Panel.SyncFromUrl | src/app/spots/components/filters/Filter.tsx:36-46 | the selections become those parsed from the URL's query |
| FilterPanel.Panel.UpdateUrl | src/app/spots/components/filters/Filter.tsx:49-85 | the URL of the given selections is pushed; the selections are not touched |
| FilterPanel.Panel.HandleCategoryChange | src/app/spots/components/filters/Filter.tsx:87-105 | the selections change as a category check or uncheck prescribes, and their URL is pushed |
| FilterPanel.Panel.HandleDistrictChange | src/app/spots/components/filters/Filter.tsx:107-112 | the same for a district |
| FilterPanel.Panel.HandleTypeChange | src/app/spots/components/filters/Filter.tsx:114-119 | the same for a type |
| FilterPanel.Panel.HandlePaidChange | src/app/spots/components/filters/Filter.tsx:121-125 | the same for the paid filter |
| FilterPanel.Panel.RemoveFilter | src/app/spots/components/filters/Filter.tsx:127-150 | the selections lose the removed value, and their URL is pushed |
| FilterPanel.Panel.ClearAllFilters | src/app/spots/components/filters/Filter.tsx:152-158 | nothing is selected any more, no filter is active, and the URL with no selections is pushed |
| FilterPanel.HandlerThenSync | src/app/spots/components/filters/Filter.tsx:36-112 | checking a district and reloading the panel from the pushed URL keeps the selections the handler made |

## Left out

- Search.PostalAndOrdinalAgree: holds only for spots whose searchable text contains neither query. The whole-phrase test (`src/lib/search.ts:146`) comes before the district test, so a spot whose text contains "75015" is found by "75015" in any district, and not by "15e arrondissement" unless it lies in district 15.
- Network requests and JSON decoding are left out. `fetchAPIData` (`src/lib/data-fetchers.ts:32-65`) is
  not modelled because it only performs three requests and decodes them. The loaders take the decoded
  records, or the outcome of a request, as arguments instead.
- Console logging and `await` are left out. A rejected request or an exception caught by a `try`/`catch`
  becomes the empty list or null that the code returns.
- React rendering, the router and `revalidate` are left out: markup, styling, Next.js caching and the
  timing of effects. The panel pushes URLs to a list; nothing navigates.
- The "Affichage de X à Y sur N spots" line of the older bar is not modelled as a string. It is modelled
  by the numbers it shows.
- Floating-point coordinates are modelled as integers.
- Number formatting is modelled only for integers, and only as exact integers.
- DataTransformers.TransformDistrictOfLabel: the district number is written out exactly. JavaScript's `parseInt` returns a double, so a run of 17 or more digits is rounded once it passes 2^53, and `toString` uses exponent form from 10^21: "PARIS 12345678901234567890ER ARRONDISSEMENT" becomes "75012345678901234567000" in the program, not "75012345678901234567890". The model has no floating point, and real district labels have one or two digits.
- Strings.ParseIntText: reads any run of digits as an exact integer; it agrees with JavaScript only for values below 2^53 (the same gap as above).
- SpotUtils.DistrictPhrase: uses `Strings.ParseIntText`, so a `spot.district` of "750" followed by 17 or more digits renders differently from JavaScript.
- Unicode case mapping and NFD decomposition are modelled for ASCII, Latin-1 except ß and µ, Œ and Ÿ. All
  other characters are left unchanged, including Latin Extended letters such as İ and ŉ and ligatures
  such as ﬁ.
- TextCase.UpperChar: maps one character to one character, so it leaves ß and µ unchanged. JavaScript's
  `toUpperCase` turns ß into the two characters "SS" and µ (U+00B5) into Μ (U+039C).
- TextCase.LowerUpper: holds in the model for every character. Under JavaScript's case mapping it fails for
  ß, whose upper case "SS" lower-cases to "ss", and for µ, whose upper case Μ lower-cases to μ (U+03BC).
- DataTransformers.TitleCaseOnlyChangesCase: the same length and the same lower-case form hold only
  because the model leaves ß and µ unchanged. In JavaScript a word starting with ß grows by one
  character, and "µm" lower-cases to "μm" after title-casing.
- DataTransformers.TitleCaseIdempotent: holds only because the model leaves ß unchanged. In JavaScript
  "ßa" title-cases to "SSa", which title-cases again to "Ssa".
- Percent-encoding by `URLSearchParams` is not modelled.
  - The round-trip lemmas require that names hold no '=' and that names and values hold no '&', which
    percent-encoding would otherwise handle.
  - The filter lemmas also require selection items without ','. The source's comma-joined lists lose such
    items, so the source cannot promise more.
- `getDatasetConfig` looks up a plain object. JavaScript would also find inherited keys such as
  "constructor". The model looks up only the three dataset identifiers.
- `generateSpotTitle`'s fallback label 'Spot' cannot be reached with the three typed categories, so it is
  not modelled.
- The `ème arrondissement` test of `isSpotInDistrict` (`src/lib/search.ts:95`) never holds, because the
  district text has been normalized and has lost its accents. `Search.IsSpotInDistrictWithoutGraveForm`
  states the test without it.
- The legacy stubs and the filter engine and pagination helpers outside the core files are not part of
  this model.
- DataTransformers.FormatToTitleCase: its own contract states only the empty case. The full behaviour is
  stated by `TitleCaseWords`, `TitleCaseOnlyChangesCase`, `TitleCaseIdempotent` and
  `TitleCaseFirstCharacter`.
- Pagination.Render: does not model link markup; a missing previous or next link stands for the disabled
  button. Its contract, `OneActiveEntry` and `PreviousNextLinks` state the entries and links.
- LegacyPagination.LegacyRender: states only when the bar is hidden. `SameWindowAsLater`,
  `LegacyPreviousNext` and the `ItemRange` lemmas state the rest.
- `Date.now()` is an argument of every cache operation that reads the clock; the module-level slots are
  the fields of one `Caches` object.
