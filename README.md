# California beach management data pipeline, modelled in Dafny

This project models the offline pipeline of the California beach-management map. The pipeline has six steps:

1. Raw coastal-access records (`AccessLocation`) are filtered to the California box.
2. The kept records are turned into GeoJSON beach features.
3. The scorer ranks every beach and marks the top fifty as research priorities.
4. A keyword heuristic writes a guessed management record for each of those fifty.
5. The merger spreads researched records over the features and sorts them.
6. The validator lists errors and warnings for every beach and fails the run when any beach has an error.

The model also covers the zoom rule of the map layer that decides which beaches are drawn.

The modules:

- **Beach.** The shared record types.
  - Every JSON key of a beach's properties is an `Option`, so a missing key is observable.
  - `Truthy` is JavaScript truthiness for strings. `TruthyNumber` is the same for numbers.
  - `IsPriority` is `researchPriority && researchPriority <= 50`.
- **GeojsonUtils.** `generateSlug`, as a three-stage pipeline, and `determineRegion`.
- **TransformApiData.**
  - The validity filter.
  - `parseFacilities`, as a method that pushes tags step by step.
  - `transformApiBeach`, as a method that attaches the optional blocks.
  - `transformData`, as a loop over the kept records.
- **SelectTop50.**
  - The five sub-scores and `scoreBeach`, as a method that accumulates the score.
  - The per-county count, as a loop over a map.
  - The in-place score sort and the slice to fifty.
  - The in-place write-back of `researchPriority` and `dataStatus`.
- **MergeDataSources.**
  - The override merge. It is shallow and the override's keys win.
  - The in-place sort by `(researchPriority || 9999, name)`.
- **ValidateData.**
  - `validateBeachData`, as a method that pushes errors and warnings in source order.
  - The driver: the run fails iff some beach has an error, and at most ten warning beaches are shown.
- **AutoResearch.** `inferManagementFromName`, `getCityFromCounty` and the per-beach mapping.
- **BeachLayer.** `shouldShowAtZoom` and the feature filter that uses it.
- **Pipeline.** Lemmas that connect the steps.
  - A beach matched by a heuristic record passes every completeness check.
  - A top-fifty beach is visible at every zoom.
  - The merge keeps priorities.
- **Text, Seqs, StableSort, Wrappers.** Models of the JavaScript built-ins the pipeline relies on:
  - ASCII `toLowerCase` and `includes`
  - `String(n)` for integers, and `localeCompare` as code-point order
  - `filter`, `slice(0, n)`, `find` and `findIndex`
  - the stable `Array.prototype.sort`, as an in-place insertion sort proved against a functional insertion sort
  - `Option`

Two behaviours of the code worth knowing:

- **The merge forces `dataStatus = 'complete'`.** Every matched feature gets it, whatever the override holds, and no management field is checked. `Pipeline.ForcedCompleteIsFlagged` exhibits a merged beach that the validator then rejects.
- **The scorer sorts by score alone.** It uses `b.score - a.score`. Ties keep their input order because the sort is stable. There is no tie-break on the name.

## Model

| member | source | states |
|---|---|---|
| Text.Lower | scripts/utils/geojsonUtils.ts:34 | lowercasing keeps the length and maps each character by ASCII case folding |
| Text.LowerIdempotent | scripts/utils/geojsonUtils.ts:34 | lowercasing twice is lowercasing once |
| Text.RemoveWhitespaceIsFilter | scripts/research/autoResearch.ts:89 | removing whitespace keeps every other character, in order: it equals the filter on non-whitespace characters |
| Text.HostName | scripts/research/autoResearch.ts:89 | the generated host is lowercase, holds no whitespace, and equals the lowercased name with every character of JavaScript's `\s` set (ASCII blanks and the Unicode spaces) filtered out, the rest in order |
| Text.HostNameDropsSpace | scripts/research/autoResearch.ts:89 | a `\s` character between two parts of a name, a no-break space as much as a blank, is dropped: the host is the host of the left part followed by the host of the right part, so "Del\u00a0Norte" gives "del" + "norte" |
| Text.IntToString | scripts/data-import/transformApiData.ts:76 | `String(ID)` is a non-empty digit string, with a leading minus exactly for negative ids |
| Text.NatToStringValue | scripts/data-import/transformApiData.ts:76 | reading the decimal digits back gives the number |
| Text.IntToStringInjective | scripts/data-import/transformApiData.ts:76 | distinct record ids give distinct `apiSourceId`s |
| Text.LexLessTransitive | scripts/data-import/mergeDataSources.ts:93 | the name order used as the tie-break is transitive |
| Text.LexLessTotal | scripts/data-import/mergeDataSources.ts:93 | any two distinct names are ordered one way or the other |
| Seqs.Filter | scripts/research/validateData.ts:135-136 | `filter` keeps exactly the elements satisfying the predicate and never grows the list |
| Seqs.FilterAppend | scripts/data-import/transformApiData.ts:118-132 | filtering distributes over concatenation, so kept elements stay in input order |
| Seqs.FilterIsSubsequence | src/components/Map/BeachLayer.tsx:48-50 | a filtered list is an order-preserving subsequence of its input |
| Seqs.Take | scripts/research/validateData.ts:156 | `slice(0, n)` has length `min(n, len)` and is a prefix |
| Seqs.FindIndex | scripts/research/selectTop50.ts:197 | the result is -1 iff nothing matches, otherwise the first matching index |
| Seqs.Find | scripts/data-import/mergeDataSources.ts:69 | the result is absent iff nothing matches, otherwise the first matching element |
| StableSort.SortPermutes | scripts/research/selectTop50.ts:183 | sorting returns a permutation of its input |
| StableSort.SortSorted | scripts/research/selectTop50.ts:183 | under a strict weak order, the sorted list has no later element strictly before an earlier one |
| StableSort.SortStable | scripts/research/selectTop50.ts:183 | elements of equal rank keep their input order |
| StableSort.SortIdempotent | scripts/data-import/mergeDataSources.ts:85-94 | sorting a sorted list changes nothing |
| StableSort.InsertAt | scripts/research/selectTop50.ts:183 | one in-place insertion step: the prefix becomes the functional insertion and the suffix is untouched |
| StableSort.SortInPlace | scripts/data-import/mergeDataSources.ts:85-94 | the in-place sort leaves the array equal to the functional stable sort of its old contents |
| GeojsonUtils.CollapseSeparators | scripts/utils/geojsonUtils.ts:35 | the result is empty iff the input is, and starts with a dash iff the input starts with a non-alphanumeric |
| GeojsonUtils.CollapseWellSeparated | scripts/utils/geojsonUtils.ts:35 | the collapse leaves only `a-z0-9-` and never two dashes in a row |
| GeojsonUtils.CollapseWord | scripts/utils/geojsonUtils.ts:35 | a run of letters and digits passes through the collapse unchanged |
| GeojsonUtils.CollapseRun | scripts/utils/geojsonUtils.ts:35 | a non-empty run of non-alphanumerics before a letter, digit or the end becomes exactly one dash |
| GeojsonUtils.CollapseJoined | scripts/utils/geojsonUtils.ts:35 | words separated by single blanks collapse to the same words separated by single dashes |
| GeojsonUtils.TrimLeadingDashes | scripts/utils/geojsonUtils.ts:36 | the result is a suffix of its input that does not start with a dash, and the part removed is all dashes |
| GeojsonUtils.TrimTrailingDashes | scripts/utils/geojsonUtils.ts:36 | the result is a prefix of its input that does not end with a dash, and the part removed is all dashes |
| GeojsonUtils.TrimsKeep | scripts/utils/geojsonUtils.ts:36 | a string neither starting nor ending with a dash survives both trims |
| GeojsonUtils.SlugShape | scripts/utils/geojsonUtils.ts:32-37 | every slug has only `a-z`, `0-9` and `-`, no double dash, and no dash at either end |
| GeojsonUtils.TrimmedShape | scripts/utils/geojsonUtils.ts:36 | trimming both ends of a well-separated string gives that shape |
| GeojsonUtils.SlugJoinsWords | scripts/utils/geojsonUtils.ts:32-37 | a name whose lowercase form is words separated by single blanks (such as "Main Beach Park") slugs to the same words joined by single dashes |
| GeojsonUtils.SlugIdempotent | scripts/utils/geojsonUtils.ts:32-37 | slugging a slug returns it unchanged |
| GeojsonUtils.SlugKeepsAlnum | scripts/utils/geojsonUtils.ts:32-37 | the slug keeps every letter and digit of the lowercased name, in order |
| GeojsonUtils.SlugCaseInsensitive | scripts/utils/geojsonUtils.ts:34 | names equal up to case have the same slug |
| GeojsonUtils.DetermineRegion | scripts/utils/geojsonUtils.ts:39-66 | north iff the lowercased county contains a northern name; central iff no northern but some central name; south otherwise |
| GeojsonUtils.RegionCaseInsensitive | scripts/utils/geojsonUtils.ts:40 | a county and its lowercased form get the same region |
| GeojsonUtils.NorthWins | scripts/utils/geojsonUtils.ts:43-52 | a county containing a northern name is north, whatever else it contains |
| GeojsonUtils.SanFranciscoIsNorth | scripts/utils/geojsonUtils.ts:43-52 | "San Francisco" is north |
| GeojsonUtils.MontereyIsCentral | scripts/utils/geojsonUtils.ts:55-62 | "Monterey" is central |
| GeojsonUtils.LosAngelesIsSouth | scripts/utils/geojsonUtils.ts:64-65 | "Los Angeles" falls through to south |
| GeojsonUtils.UnknownIsSouth | scripts/data-import/transformApiData.ts:62-69 | the fallback county "Unknown" is south |
| TransformApiData.IsValidRecord | scripts/data-import/transformApiData.ts:118-132 | a record is kept iff it has a name and both coordinates and lies in the inclusive box 32..42 by -125..-114 |
| TransformApiData.ValidRecordsKept | scripts/data-import/transformApiData.ts:118-132 | the filter keeps exactly the valid records, in input order, and distributes over concatenation |
| TransformApiData.FacilityTagsMembership | scripts/data-import/transformApiData.ts:47-58 | a tag is listed iff its column equals "Yes"; the list is non-empty iff some column does |
| TransformApiData.FacilityTagsOrdered | scripts/data-import/transformApiData.ts:50-56 | the tags appear in the order parking, restrooms, camping, fishing, boating, volleyball, bike path |
| TransformApiData.FacilityTagsDistinct | scripts/data-import/transformApiData.ts:50-56 | no tag is listed twice, and there are at most seven |
| TransformApiData.PushIfSet | scripts/data-import/transformApiData.ts:50-56 | one guarded push extends the tag list by the next flag in the fixed order |
| TransformApiData.ParseFacilities | scripts/data-import/transformApiData.ts:47-59 | returns the tag list, or undefined exactly when no column is "Yes" |
| TransformApiData.ApiFeatureContract | scripts/data-import/transformApiData.ts:61-106 | the feature carries the slug id, the name, the county or "Unknown", its region, status api-only, `now`, `String(ID)` and point `[lng, lat]`; facilities iff some tag, accessibility iff a source column is defined, each boolean `=== 'Yes'` |
| TransformApiData.ApiFeatureInCalifornia | scripts/data-import/transformApiData.ts:118-137 | a feature built from a kept record is api-only and its coordinates lie in the box |
| TransformApiData.TransformApiBeach | scripts/data-import/transformApiData.ts:61-106 | the step-by-step construction yields exactly the feature described above |
| TransformApiData.TransformData | scripts/data-import/transformApiData.ts:108-137 | one feature per kept record, in order, each api-only and inside the box |
| SelectTop50.PopulationScore | scripts/research/selectTop50.ts:93-104 | 20 below 10 km, 15 below 25, 10 below 50, 5 below 100, 0 from 100 on |
| SelectTop50.PopulationScoreMonotone | scripts/research/selectTop50.ts:99-103 | a nearer beach never scores lower |
| SelectTop50.FacilitiesScore | scripts/research/selectTop50.ts:125-129 | five points per facility, 0 when the list is absent |
| SelectTop50.AccessibilityScore | scripts/research/selectTop50.ts:131-137 | 0 without the block; otherwise 10 for wheelchair access plus 5 each for dog-friendly and parking, so 0 iff no flag holds and 20 iff all three hold |
| SelectTop50.LandmarkScore | scripts/research/selectTop50.ts:139-144 | 15 iff the lowercased name contains a landmark keyword, else 0 |
| SelectTop50.LandmarkCaseInsensitive | scripts/research/selectTop50.ts:140 | the landmark bonus ignores case |
| SelectTop50.PierIsLandmark | scripts/research/selectTop50.ts:61-77 | a lowercase name containing "pier" gets the bonus |
| SelectTop50.CountyScore | scripts/research/selectTop50.ts:146-150 | 10 for fewer than 10 beaches in the county, 5 for fewer than 50, 0 otherwise |
| SelectTop50.CountyScoreMonotone | scripts/research/selectTop50.ts:147-148 | a county with more beaches never gets a larger bonus |
| SelectTop50.ScoreBounds | scripts/research/selectTop50.ts:111-159 | the total is the sum of the five retained sub-scores and lies in 0..65 plus the facility points |
| SelectTop50.ScoringExample | scripts/research/selectTop50.ts:120-150 | a concrete beach scores 20 + 10 + 15 + 15 + 10 = 70 |
| SelectTop50.ScoreBeach | scripts/research/selectTop50.ts:106-161 | the accumulating method returns the record built from the five sub-scores and the county count of the map |
| SelectTop50.CountyCountPositive | scripts/research/selectTop50.ts:173-177 | every beach's county is counted at least once |
| SelectTop50.CountByCounty | scripts/research/selectTop50.ts:172-177 | the map gives each county its number of beaches, and the counts sum to the number of features |
| SelectTop50.ByScoreIsStrictWeakOrder | scripts/research/selectTop50.ts:183 | "higher score first" is a strict weak order |
| SelectTop50.ScoreAll | scripts/research/selectTop50.ts:180 | one score per feature, in order, each the scored record of that feature with its county's count in the whole collection |
| SelectTop50.ScoreFeatures | scripts/research/selectTop50.ts:180 | the mapping loop fills a new array equal to the scores of all features, in order |
| SelectTop50.RankingOrdered | scripts/research/selectTop50.ts:182-183 | the ranking is a permutation of the scored beaches with non-increasing scores |
| SelectTop50.RankingStable | scripts/research/selectTop50.ts:183 | beaches with equal scores keep their input order |
| SelectTop50.SameRankIsSameScore | scripts/research/selectTop50.ts:183 | two beaches tie in the sort iff their scores are equal |
| SelectTop50.TopSelection | scripts/research/selectTop50.ts:185-186 | the top list has `min(50, n)` entries drawn from the scored beaches, none scoring below a beach left out |
| SelectTop50.RankingIdempotent | scripts/research/selectTop50.ts:183 | ranking a ranking changes nothing |
| SelectTop50.PrioritizedContract | scripts/research/selectTop50.ts:196-205 | a feature whose id is in the top list gets priority first index + 1 and status partial; every other feature is unchanged |
| SelectTop50.PrioritizedInPrioritySet | scripts/research/selectTop50.ts:199-201 | a marked feature's priority lies in 1..50, so it enters the priority set |
| SelectTop50.AssignPriorities | scripts/research/selectTop50.ts:196-205 | the in-place write-back leaves every feature equal to its prioritized form |
| SelectTop50.SelectTop | scripts/research/selectTop50.ts:172-205 | the run returns the top fifty of the scored features and writes their priorities back |
| MergeDataSources.Researched | scripts/data-import/mergeDataSources.ts:54-65 | a missing or unreadable file means no overrides |
| MergeDataSources.Overlay | scripts/data-import/mergeDataSources.ts:73-75 | spreading the empty record changes nothing, and spreading over the empty record gives the override |
| MergeDataSources.OverlayIdempotent | scripts/data-import/mergeDataSources.ts:73-75 | spreading the same record twice equals spreading it once |
| MergeDataSources.OverlayAssociative | scripts/data-import/mergeDataSources.ts:73-75 | two spreads in a row are one spread of the combined record |
| MergeDataSources.OverlayKeepsWellTyped | scripts/data-import/mergeDataSources.ts:73-75 | a spread never removes a required key |
| MergeDataSources.MergeOneContract | scripts/data-import/mergeDataSources.ts:68-82 | an unmatched feature passes through unchanged; a matched one takes the first matching record, with status complete, `lastUpdated` now, and the same id and geometry |
| MergeDataSources.MergedFieldWise | scripts/data-import/mergeDataSources.ts:73-78 | for each of the sixteen other keys, the override's value when it has the key and the feature's otherwise; `dataStatus` is complete and `lastUpdated` is now |
| MergeDataSources.MergeOneIdempotent | scripts/data-import/mergeDataSources.ts:68-82 | merging a merged feature again with the same data and timestamp changes nothing |
| MergeDataSources.MergeAll | scripts/data-import/mergeDataSources.ts:68-82 | the merged list has the input's length, feature by feature |
| MergeDataSources.MissingFileChangesNothing | scripts/data-import/mergeDataSources.ts:56-65 | without the file, the merge map is the identity |
| MergeDataSources.UnmatchedRecordsIgnored | scripts/data-import/mergeDataSources.ts:69 | an override whose id matches no feature has no effect |
| MergeDataSources.ByPriorityThenNameIsStrictWeakOrder | scripts/data-import/mergeDataSources.ts:85-94 | the comparator is a strict weak order |
| MergeDataSources.OrderedContract | scripts/data-import/mergeDataSources.ts:84-94 | for named features, the output is a permutation with non-decreasing priority key (the priority, or 9999 when it is unset or 0), names in order within a key, and every prioritized beach before every unprioritized one |
| MergeDataSources.MergedOutputLength | scripts/data-import/mergeDataSources.ts:68-94 | the merge stage keeps the number of features |
| MergeDataSources.MergeDataSourcesRun | scripts/data-import/mergeDataSources.ts:54-94 | for named features, the in-place merge and sort leave the array equal to the sorted merge of its old contents |
| ValidateData.RequiredFieldChecksMembership | scripts/research/validateData.ts:45-51 | each required key that is missing or empty adds its own error and nothing else |
| ValidateData.CoordinateChecksMembership | scripts/research/validateData.ts:53-64 | an out-of-range latitude or longitude adds an error naming the value; missing coordinates add their own error |
| ValidateData.CompletenessChecksMembership | scripts/research/validateData.ts:103-114 | a `complete` beach gets one error per missing management field |
| ValidateData.ErrorsExact | scripts/research/validateData.ts:40-115 | an error is listed iff its condition holds, including the geometry and region errors |
| ValidateData.BoundaryCoordinatesValid | scripts/research/validateData.ts:56-61 | coordinates inside the inclusive box, boundaries included, draw no coordinate error |
| ValidateData.WarningsOnlyForPriority | scripts/research/validateData.ts:76-101 | only a priority beach gets warnings, at most six |
| ValidateData.ErrorsIgnorePriority | scripts/research/validateData.ts:76-114 | the priority never changes the errors |
| ValidateData.NoErrorsIffValid | scripts/research/validateData.ts:40-115 | a beach has no errors iff every required key, the region, the box, the polygon and the completeness conditions hold |
| ValidateData.CheckRequiredFields | scripts/research/validateData.ts:45-51 | the six guarded pushes produce the required-field errors |
| ValidateData.CheckCoordinates | scripts/research/validateData.ts:53-64 | the coordinate branch produces the coordinate errors |
| ValidateData.CheckPriority | scripts/research/validateData.ts:76-101 | the guarded pushes produce the warnings |
| ValidateData.CheckCompleteness | scripts/research/validateData.ts:103-114 | the guarded pushes produce the completeness errors |
| ValidateData.ValidateBeachData | scripts/research/validateData.ts:40-122 | the result holds the beach's id and name, its errors and its warnings |
| ValidateData.FailedIffSomeError | scripts/research/validateData.ts:135 | the error filter is non-empty iff some result has an error |
| ValidateData.ShownWarnings | scripts/research/validateData.ts:152-164 | at most ten warning beaches are shown, all with warnings, and all of them when there are fewer than ten |
| ValidateData.ValidateAll | scripts/research/validateData.ts:133-193 | one result per beach; the run fails iff some beach has an error; the shown list is the first ten warned results in input order (`slice(0, 10)` of the warning filter) |
| AutoResearch.CityFromCounty | scripts/research/autoResearch.ts:109-127 | a listed county gives its city, any other county gives itself; the result is empty iff the county is |
| AutoResearch.CityLookupExamples | scripts/research/autoResearch.ts:110-126 | Orange gives Newport Beach, Marin gives Sausalito, and the unlisted Del Norte gives itself |
| AutoResearch.InferManagement | scripts/research/autoResearch.ts:33-107 | every branch returns status partial, non-empty entity names and a department and website |
| AutoResearch.InferPrecedence | scripts/research/autoResearch.ts:36-106 | state iff a state keyword occurs; federal iff none but a federal one; city iff neither but a city one; county otherwise; never special-district |
| AutoResearch.InferCaseInsensitive | scripts/research/autoResearch.ts:34 | names equal up to case are classified alike |
| AutoResearch.InferOfLowered | scripts/research/autoResearch.ts:34 | lowercasing the name first changes nothing |
| AutoResearch.StateBeatsPier | scripts/research/autoResearch.ts:37-80 | a name with "state beach" is state-managed even when it also names a pier |
| AutoResearch.CityBranch | scripts/research/autoResearch.ts:72-93 | the city branch names "City of " + city and city + " Parks & Recreation", with a lowercase host without blanks |
| AutoResearch.CountyBranch | scripts/research/autoResearch.ts:95-106 | the county branch names "County of " + county and county + " County Parks and Recreation", with a lowercase host without blanks |
| AutoResearch.Research | scripts/research/autoResearch.ts:137-155 | each record keeps the beach id and the inferred type, is partial and has entity names and a department |
| AutoResearch.AutoResearch | scripts/research/autoResearch.ts:137-155 | one record per top-50 entry, in the same order |
| AutoResearch.AutoResearchRecords | scripts/research/autoResearch.ts:140-148 | every record has the entry's id, status partial and non-empty entity names |
| AutoResearch.AsProperties | scripts/data-import/mergeDataSources.ts:58-60 | a researched record read back as an override carries its id, type, entities and status, and no name, coordinates or priority |
| BeachLayer.ShouldShowAtZoom | src/components/Map/BeachLayer.tsx:14-32 | a priority beach is always shown; a hidden beach is below zoom 12 and not complete |
| BeachLayer.ZoomBands | src/components/Map/BeachLayer.tsx:20-31 | for a non-priority beach: below 9 shown iff complete, from 9 below 12 shown iff not api-only, from 12 always |
| BeachLayer.VisibilityMonotone | src/components/Map/BeachLayer.tsx:14-32 | a beach shown at some zoom stays shown when zooming in |
| BeachLayer.VisibleFeatures | src/components/Map/BeachLayer.tsx:47-51 | a feature is drawn iff it is in the data and shown at the zoom |
| BeachLayer.VisibleIsSubsequence | src/components/Map/BeachLayer.tsx:47-51 | the drawn list keeps the data's order |
| BeachLayer.VisibleGrowsWithZoom | src/components/Map/BeachLayer.tsx:47-51 | the drawn list at a zoom is a subsequence of the drawn list at any closer zoom |
| BeachLayer.EverythingAtStreetLevel | src/components/Map/BeachLayer.tsx:30-31 | from zoom 12 every feature is drawn |
| Pipeline.ResearchFile | scripts/research/autoResearch.ts:137-158 | the heuristic's file holds one override per top-50 entry, with its id |
| Pipeline.ResearchFileHasManagement | scripts/research/autoResearch.ts:137-155 | every heuristic override holds all three management fields and no priority |
| Pipeline.ManagedPassesCompleteness | scripts/research/validateData.ts:104-114 | a beach with all three management fields draws no completeness error |
| Pipeline.AutoResearchedMergeIsComplete | scripts/data-import/mergeDataSources.ts:68-82 | a beach matched by a heuristic record leaves the merge complete and passes every completeness check |
| Pipeline.ForcedCompleteIsFlagged | scripts/data-import/mergeDataSources.ts:76 | an override holding only a management type still marks the beach complete, and the validator then reports the missing accountable entity |
| Pipeline.TopBeachesAlwaysVisible | scripts/research/selectTop50.ts:196-205 | a beach written back with a top-50 priority is drawn at every zoom |
| Pipeline.MergeKeepsPriority | scripts/data-import/mergeDataSources.ts:73-78 | merging the heuristic's records keeps a priority beach in the priority set |

## Left out

- The haversine distance and the `MAJOR_CITIES` table are not modelled, because they are floating-point trigonometry. The scorer takes a function `nearest(lat, lng)` giving the minimum distance as a parameter.
- Polygon generation (`generatePolygons.ts`) is not part of this model: it wraps `@turf/turf` geometry. A feature's geometry is only a tag, point or polygon.
- Fetching access locations (`apiClient.ts`, `fetchAccessLocations.ts`) is network I/O with retries and is not modelled.
- Reading and writing JSON and GeoJSON files is not modelled. Each step takes and returns values. A researched file that cannot be read is `None`.
- `new Date().toISOString()` is not modelled. It becomes a parameter `now`. The code reads the clock once per record (transformApiData.ts:75) and once per matched feature (mergeDataSources.ts:77). The model gives every record of one run the same timestamp `now`.
- Console output is not modelled. That covers the summary statistics (county and management-type distributions, completeness counts) and the text of error and warning messages. Messages are datatype constructors carrying the interpolated values.
- `process.exit(1)` is modelled only as the returned `failed` flag.
- Only ASCII letters are lowercased; full Unicode case mapping is not modelled. `localeCompare` is modelled as code-point order, not locale collation.
- `NaN`, `-0`, and values of the wrong JSON type are not modelled. Coordinates and zoom are mathematical reals; scores and priorities are unbounded integers.
- Keys a JavaScript object inherits from its prototype are not modelled. In the county-count map (`acc[county] || 0`) and in `cityMap[county]`, only the keys actually inserted or listed are found.
- Aliasing between a feature held in several arrays is not modelled. Features are values; the in-place updates are updates of array cells.
- ByPriorityThenName: a feature without a `name` is outside the sort's contract (`OrderedContract` and `MergeDataSourcesRun` require every name). In the code, `localeCompare` throws when the left-hand name is missing and compares against the text "undefined" when the right-hand one is. The comparator's empty-name fallback is never reached under that requirement.
- Text.IntToString: record ids are integers. A non-integral `ID` (`String(1.5)`) and the exponent form JavaScript prints for ids of 10^21 and above are not modelled.
- Beach.OtherGeometry: stands for any GeoJSON geometry whose `type` is neither `Point` nor `Polygon`. Its `kind` is only a tag; a `kind` of "Polygon" or "Point" does not correspond to anything in the data, and the validator treats every `OtherGeometry` as not a polygon.
- The map layer's styling, event handlers and rendering, and the other UI components, are not modelled.
