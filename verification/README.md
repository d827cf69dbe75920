# Route planner scraping pipeline, modelled in Dafny

This project models the data-gathering core of the route planner backend. That core fills the
database from four places:

- **Hiking reports** (Globus): the route text of each report is split into stops. Each stop is
  parsed for a grade, an elevation and a type hint, and tied to a known location or to a new one.
- **GeoNames country dump**: rows of the four Carpathian regions of Ukraine.
- **vpohid.com.ua catalogue**: places classified from their type text and name.
- **Ukrainian Wikipedia categories**: lakes, rivers, summits, passes, ranges and settlements.

Every place record from those sources is merged into the locations table. A record joins a
stored location that `areSameLocation` calls the same place, and otherwise a new location and its
name index entries are inserted. As written, that test never matches a record whose coordinates
are `undefined`, so such a record is inserted again on every run (see Findings). The services are
modelled with the test as written; a corrected test is modelled beside it. A small helper deletes keys from an object before it is returned.

Modules, one per source file plus shared ones:

| module | file | models |
|---|---|---|
| `Wrappers` | wrappers.dfy | `Option`, `Result` |
| `JsText` | jstext.dfy | the JavaScript string built-ins the code relies on: `trim`, `indexOf`, `includes`, `replace` with a string pattern, `replaceAll` of single characters, `split`, `join`, `toLowerCase`, array indexing past the end |
| `JsNumbers` | jsnumbers.dfy | `null`/`undefined`/`NaN`/number values and `Number(text)` on decimal literals |
| `Domain` | domain.dfy | the database enums, the source records and the table rows |
| `Util` | util.dfy | `src/scarping/util.ts` |
| `Store` | store.dfy | the tables, as an in-memory `Database` class whose methods are the Prisma calls the services make |
| `Globus` | globus.dfy | `src/scarping/reports/globus.ts` (parsing) |
| `ScarpReports` | scarpreports.dfy | `src/scarping/reports/scarp-reports.service.ts` |
| `ScarpLocations` | scarplocations.dfy | `src/scarping/locations/scarp-locations.service.ts` |
| `GeoNames` | geonames.dfy | `src/scarping/locations/geonames.ts` |
| `Wikipedia` | wikipedia.dfy | `src/scarping/locations/wikipedia.ts` |
| `Vpohid` | vpohid.dfy | `src/scarping/locations/vpohid.ts` |
| `ExcludeFields` | excludefields.dfy | `src/prisma/exclude-fields.ts` |

Services that change the database follow the same pattern. Each is a method on `Store.Database`
that is proved to leave the tables equal to a function of the old tables, such as
`ScarpLocations.MergeAll` or `ScarpReports.ScarpAll`. The properties the services promise are
then lemmas about those functions. Loops that build arrays are methods proved equal to a
function of their input: `GeoNames.ParseGeonamesData`, `Wikipedia.SplitIntoBatches`,
`Wikipedia.ScarpCategory`, `Vpohid.ScarpLocations` and the two `Globus.parseLocation` loops.

The haversine `distance` is a parameter `dist`. The resolvers only compare its value with 10 km
and 100 km. Unicode NFKD normalisation is a parameter of the route parser. Page downloads and
DOM queries are also parameters, or inputs: the texts the code selects from a page. The
regular expressions are hand-written matchers that follow the JavaScript engine's search order.

## Model

| member | source | states |
|---|---|---|
| Util.MinBy | src/scarping/util.ts:6-20 | throws exactly on an empty array; otherwise returns the first element with the smallest value, because a later one replaces it only when strictly smaller |
| Util.ArgMinIsFirstMinimum | src/scarping/util.ts:12-18 | the chosen element's value is at most every element's, and strictly below every earlier element's |
| Util.StoredCoordinatesPresent | src/scarping/util.ts:50-51 | a stored location has coordinates exactly when both columns are set |
| Util.UndefinedCountsAsPresent | src/scarping/util.ts:50-51 | a record whose coordinates are `undefined` passes `hasCoordinates`, which tests only for `null` |
| Util.UrlToFilename | src/scarping/util.ts:63 | same length, every '/' becomes '.', every other character kept, and no '/' is left |
| Store.EmptyWellFormed | src/scarping/locations/scarp-locations.service.ts:92-110 | the empty database satisfies the key invariants (ids are positions, foreign keys refer to stored rows) |
| Store.AddLocation | src/scarping/locations/scarp-locations.service.ts:92-102 | `location.create` appends one row with the next id and no description, and keeps the invariants |
| Store.SetDescription | src/scarping/locations/scarp-locations.service.ts:82-89 | `location.update` changes only the description of the given row |
| Store.AddNames | src/scarping/locations/scarp-locations.service.ts:109 | `createMany` appends the entries in order |
| Store.AddRoute | src/scarping/reports/scarp-reports.service.ts:41 | a new route takes the next id |
| Store.AddRouteStop | src/scarping/reports/scarp-reports.service.ts:77-80 | a route stop row is appended |
| Store.AddReport | src/scarping/reports/scarp-reports.service.ts:196-210 | a report row with the next id is appended |
| Store.AddDifficulty | src/scarping/reports/scarp-reports.service.ts:186-193 | a difficulty row is appended |
| Store.LocationsNamedMembers | src/scarping/locations/scarp-locations.service.ts:44-52 | a name finds only stored locations; it finds nothing when no entry has the name, and finds the location of every entry that has it |
| Store.LocationsNamedAppend | src/scarping/locations/scarp-locations.service.ts:44-52 | entries added under other names do not change what a name finds |
| Store.LocationsNamedWitness | src/scarping/locations/scarp-locations.service.ts:44-52 | every location found comes from an entry with that name |
| Store.RouteStopsOfMembers | src/scarping/reports/scarp-reports.service.ts:174-179 | a route's stops are exactly the stored stops with its id |
| Store.RouteStopsOfAppend | src/scarping/reports/scarp-reports.service.ts:174-179 | the query distributes over appended rows, in order |
| Store.RouteStopsOfNewRoute | src/scarping/reports/scarp-reports.service.ts:174-179 | stops appended on a fresh route are exactly that route's stops |
| Store.NewRouteHasNoStops | src/scarping/reports/scarp-reports.service.ts:41 | a route id not yet taken has no stops |
| Store.Database.CreateLocation | src/scarping/locations/scarp-locations.service.ts:93-101 | the tables become `AddLocation` of the old tables, and the new row is returned |
| Store.Database.UpdateDescription | src/scarping/locations/scarp-locations.service.ts:82-89 | the tables become `SetDescription` of the old tables |
| Store.Database.CreateNames | src/scarping/locations/scarp-locations.service.ts:109 | the tables become `AddNames` of the old tables |
| Store.Database.CreateRoute | src/scarping/reports/scarp-reports.service.ts:41 | the tables become `AddRoute` of the old tables, returning the new id |
| Store.Database.CreateRouteStop | src/scarping/reports/scarp-reports.service.ts:77-80 | the tables become `AddRouteStop` of the old tables |
| Store.Database.CreateReport | src/scarping/reports/scarp-reports.service.ts:196-210 | the report row built from the record is appended and returned |
| Store.Database.CreateLocationDifficulty | src/scarping/reports/scarp-reports.service.ts:186-193 | the tables become `AddDifficulty` of the old tables |
| Globus.TripTypeOf | src/scarping/reports/globus.ts:118-129 | exactly the four trip-type names give a type, and each gives the type it names |
| Globus.TripTypeNameRoundTrip | src/scarping/reports/globus.ts:118-129 | every trip type is read back from its own name |
| Globus.TripDifficultyOf | src/scarping/reports/globus.ts:131-145 | a missing field gives no category; otherwise exactly the seven category names, after trimming, give one, and each gives the category it names |
| Globus.TripDifficultyNameRoundTrip | src/scarping/reports/globus.ts:131-145 | every category is read back from its own name, also with white space around it |
| Globus.SeasonOf | src/scarping/reports/globus.ts:154-165 | exactly the four season names give a season, and each gives the season it names |
| Globus.SeasonNameRoundTrip | src/scarping/reports/globus.ts:154-165 | every season is read back from its own name |
| Globus.DifficultyFromString | src/scarping/reports/globus.ts:267-284 | a text gives a grade exactly when it is that grade's name, and no grade when it names none |
| Globus.GradeNameRoundTrip | src/scarping/reports/globus.ts:267-284 | every grade is read back from its own name |
| Globus.ReplaceEnDash | src/scarping/reports/globus.ts:183 | each en-dash becomes a hyphen and every other character is kept in place |
| Globus.CollapseWhitespace | src/scarping/reports/globus.ts:184 | the only white space left is ' ', never two in a row, and the non-white-space text is unchanged |
| Globus.CollapseWhitespaceIsSqueeze | src/scarping/reports/globus.ts:184 | collapsing equals the one-character-at-a-time reading: each maximal run of white space becomes exactly one space, every other character is kept in order |
| Globus.NormalizeRoute | src/scarping/reports/globus.ts:182-184 | the result is the normalised text with hyphens for en-dashes and each run of white space turned into one space; no en-dash or double space is left, and the non-white-space text is the normalised text's, en-dashes turned into hyphens |
| Globus.SeparatorAt | src/scarping/reports/globus.ts:169 | a separator match is "- " (not after white space), " -" (not before white space) or " - " |
| Globus.CutsFrom | src/scarping/reports/globus.ts:185 | the cuts `split` makes are separator matches, in order and non-overlapping, and every separator start lies in one |
| Globus.SplitReassembles | src/scarping/reports/globus.ts:185 | the stop names with the separators put back between them are the whole text |
| Globus.HyphenInSeparator | src/scarping/reports/globus.ts:168-169 | a hyphen that splits always has a space beside it |
| Globus.FlushHyphenKept | src/scarping/reports/globus.ts:168-169 | a hyphen between two non-white-space characters never splits |
| Globus.SplitExample | src/scarping/reports/globus.ts:168-169 | "А-Б - В" splits into "А-Б" and "В" |
| Globus.ParseRouteStops | src/scarping/reports/globus.ts:170-193 | an empty or missing route throws; otherwise stop i is numbered i, is named by the i-th piece of the normalised text and holds that piece's parsed location |
| Globus.CapturedGradeIsKnown | src/scarping/reports/globus.ts:219 | whatever the grade group captures is one of the thirteen grade names |
| Globus.NumeralEnds | src/scarping/reports/globus.ts:220 | every way the numeral can end leaves at least two characters in it |
| Globus.TailEnds | src/scarping/reports/globus.ts:220 | the elevation tail can always end somewhere, and only after the numeral |
| Globus.ElevationAndGradeAt | src/scarping/reports/globus.ts:221 | a match of r1 is a non-empty span starting there, and its grade is a known one |
| Globus.GradeInBracketsAt | src/scarping/reports/globus.ts:222 | the same for r2 |
| Globus.ElevationAt | src/scarping/reports/globus.ts:223 | the same for r3, whose `\(` in a template literal is only a group |
| Globus.SpacedGradeAt | src/scarping/reports/globus.ts:224 | the same for r4 |
| Globus.SpacedElevationAt | src/scarping/reports/globus.ts:225 | the same for r5 |
| Globus.Match | src/scarping/reports/globus.ts:234 | `match` returns the match of the pattern at the position it reports |
| Globus.MatchIsLeftmost | src/scarping/reports/globus.ts:234 | no match starts before the one returned |
| Globus.FirstPattern | src/scarping/reports/globus.ts:226-235 | the chosen pattern matches, and it is the one whose match is returned |
| Globus.EarlierPatternWins | src/scarping/reports/globus.ts:226-245 | a pattern that matches is applied unless one listed before it also matches |
| Globus.ExtractGradeAndElevation | src/scarping/reports/globus.ts:231-245 | with no pattern matching, nothing is extracted; otherwise the first pattern's leftmost match is cut out and the rest trimmed, the grade is the one the captured grade text names, and the elevation is `Number` of the captured numeral, `undefined` when none was captured |
| Globus.FirstAbbreviation | src/scarping/reports/globus.ts:248-249 | the first abbreviation in table order that occurs in the text, or none |
| Globus.ExtractType | src/scarping/reports/globus.ts:247-254 | the earliest-listed abbreviation found gives the type and only its first occurrence is removed; none found leaves the text and no type; "Село А", for example, gets no type, because "с." needs its dot |
| Globus.LongerAbbreviationsFirst | src/scarping/reports/globus.ts:196-218 | when one abbreviation of the table occurs inside another, the containing one is listed first |
| Globus.CleanName | src/scarping/reports/globus.ts:256-262 | no bracket characters remain and the name is trimmed |
| Globus.StripGradeAndElevation | src/scarping/reports/globus.ts:231-245 | the pattern loop with `break` computes `ExtractGradeAndElevation` |
| Globus.StripTypeHint | src/scarping/reports/globus.ts:247-254 | the abbreviation loop with `break` computes `ExtractType` |
| Globus.ParseLocation | src/scarping/reports/globus.ts:229-265 | the parser computes grade and elevation first, then the type hint, then the clean-up, and the result is `Globus.ParsedLocation`, the composition of those steps |
| ScarpReports.OfStopTypeMembers | src/scarping/reports/scarp-reports.service.ts:98-105 | a stop of unknown type keeps every location; otherwise only locations of its type are kept |
| ScarpReports.CandidatesAreNamed | src/scarping/reports/scarp-reports.service.ts:89-105 | the candidates are exactly the stored locations the stop's name finds whose type matches |
| ScarpReports.WithCoordinatesMembers | src/scarping/reports/scarp-reports.service.ts:129-131 | exactly the candidates with both coordinates are kept |
| ScarpReports.NearestIsArgMin | src/scarping/reports/scarp-reports.service.ts:132-139 | the nearest location is `minBy` over the distance from the last located stop |
| ScarpReports.NearestIsFirstMinimum | src/scarping/reports/scarp-reports.service.ts:132-139 | the chosen location is no farther than any other, and strictly nearer than every one before it |
| ScarpReports.NearestCandidate | src/scarping/reports/scarp-reports.service.ts:129-139 | the candidate picked has coordinates and is no farther than any candidate that has them |
| ScarpReports.NextLocationChoice | src/scarping/reports/scarp-reports.service.ts:113-150 | no candidates gives nothing; with no last located stop, or no candidate with coordinates, the first candidate; otherwise the nearest candidate when it is within 100 km, and nothing when it is farther |
| ScarpReports.ChosenIsStored | src/scarping/reports/scarp-reports.service.ts:85-111 | `findLocation` returns only a stored location |
| ScarpReports.LocationFromStop | src/scarping/reports/scarp-reports.service.ts:152-160 | the new location takes the stop's raw text as its name and the parsed elevation and type, with no coordinates and no description |
| ScarpReports.PlaceStopAt | src/scarping/reports/scarp-reports.service.ts:58-81 | one route stop is appended, on the route, with its number and raw name, tied to the chosen location or else to a new location made from the stop (the only location added); the last located stop becomes the chosen location when that has coordinates, and stays otherwise |
| ScarpReports.PlaceStops | src/scarping/reports/scarp-reports.service.ts:43-54 | placing the stops keeps the invariants, leaves the name index, routes, reports and difficulties alone, and ends with a last located stop that has coordinates, if any |
| ScarpReports.LastLocatedIsLast | src/scarping/reports/scarp-reports.service.ts:50-52 | the last located of a list is the one at the highest position that has coordinates, and there is none exactly when no position has them |
| ScarpReports.PlaceStopsLastLocated | src/scarping/reports/scarp-reports.service.ts:43-54 | after the loop the last located stop is the location of the last placed stop whose location has coordinates, and none when no placed stop's location has them |
| ScarpReports.PlaceStopsWritesStops | src/scarping/reports/scarp-reports.service.ts:44-54 | the report's stops become route stops in order, numbered from 0, on the route, named by the raw stop text |
| ScarpReports.PlaceStopsAddsNoCoordinates | src/scarping/reports/scarp-reports.service.ts:152-160 | placing stops keeps every stored location and adds only locations without coordinates |
| ScarpReports.NothingNewIsFound | src/scarping/reports/scarp-reports.service.ts:89-96 | the name index does not grow while a route is placed, so the lookup can return only a location that existed before |
| ScarpReports.DifficultyRowsGradeTheirStops | src/scarping/reports/scarp-reports.service.ts:162-172 | every graded stop i of the report gives the row for the location of stored stop i, with the report's season, and every row comes from a graded stop |
| ScarpReports.GradedIndicesAreGraded | src/scarping/reports/scarp-reports.service.ts:167-170 | the graded positions increase and are exactly the stops that carry a grade |
| ScarpReports.DifficultyRowsInStopOrder | src/scarping/reports/scarp-reports.service.ts:162-172 | exactly one row per graded stop, in stop order: row j grades the location of the stored stop at the j-th graded position |
| ScarpReports.AddDifficultiesWellFormed | src/scarping/reports/scarp-reports.service.ts:181-194 | difficulty rows refer to stored locations and to the stored report |
| ScarpReports.NewRouteStops | src/scarping/reports/scarp-reports.service.ts:40-56 | the stops stored for a new route are exactly the ones placed for it |
| ScarpReports.ScarpReport | src/scarping/reports/scarp-reports.service.ts:14-21 | a stored report (same title, author, year and url) changes nothing; otherwise a route with its stops, the report and its difficulty rows are added, keeping the invariants |
| ScarpReports.ScarpStoresEveryReport | src/scarping/reports/scarp-reports.service.ts:12-24 | after a scrape every scraped report is stored, and nothing stored before is lost |
| ScarpReports.StoredReportsChangeNothing | src/scarping/reports/scarp-reports.service.ts:16-18 | reports that are all stored already change nothing |
| ScarpReports.ScarpIsIdempotent | src/scarping/reports/scarp-reports.service.ts:12-24 | scraping the same reports twice is the same as scraping them once |
| ScarpReports.ChooseNextLocation | src/scarping/reports/scarp-reports.service.ts:113-150 | the method returns `NextLocation` |
| ScarpReports.FindLocation | src/scarping/reports/scarp-reports.service.ts:85-111 | the method returns `NextLocation` over the candidates of the current tables |
| ScarpReports.CreateLocationFromStop | src/scarping/reports/scarp-reports.service.ts:152-160 | inserts `LocationFromStop` with the next id |
| ScarpReports.CreateRouteStop | src/scarping/reports/scarp-reports.service.ts:58-81 | the tables and the returned location are those of `PlaceStop` |
| ScarpReports.CreateRoute | src/scarping/reports/scarp-reports.service.ts:40-56 | a new route id and the tables of `PlaceStops` on it |
| ScarpReports.CreateRouteStops | src/scarping/reports/scarp-reports.service.ts:43-54 | the loop over the stops, in order and numbered from 0, carrying the last located stop, leaves the tables of `PlaceStops` |
| ScarpReports.CreateReport | src/scarping/reports/scarp-reports.service.ts:196-210 | the report row built from the record is stored and returned |
| ScarpReports.CreateLocationsDifficulty | src/scarping/reports/scarp-reports.service.ts:162-172 | the tables become `AddDifficulties` of the old tables |
| ScarpReports.ScarpOne | src/scarping/reports/scarp-reports.service.ts:14-21 | one loop iteration leaves the tables of `ScarpReport` |
| ScarpReports.Scarp | src/scarping/reports/scarp-reports.service.ts:12-24 | the loop leaves the tables of `ScarpAll` |
| ScarpLocations.RecordDistance | src/scarping/locations/scarp-locations.service.ts:62-67 | the distance is a number exactly when both record coordinates are numbers |
| ScarpLocations.AreSameLocation | src/scarping/locations/scarp-locations.service.ts:56-74 | the same place exactly when the types are equal and either the stored location has coordinates and the record's are numbers less than 10 km from them, or the stored location has none and a record coordinate is `null` (as written) |
| ScarpLocations.AreSameLocationIntended | src/scarping/locations/scarp-locations.service.ts:56-74 | the same, with a record coordinate that is `undefined` counted as missing as well: equal types and coordinates within 10 km, or equal types and coordinates missing on both sides |
| ScarpLocations.LocationFromRecord | src/scarping/locations/scarp-locations.service.ts:92-102 | the inserted row copies name and type, stores each coordinate and the elevation when it is a number and `null` otherwise, and has no description |
| ScarpLocations.UndefinedCoordinatesNeverMatchAsWritten | src/scarping/util.ts:50-51 | as written, a record with `undefined` coordinates is never the same place as any stored location |
| ScarpLocations.RecordMatchesItsLocation | src/scarping/locations/scarp-locations.service.ts:56-74 | with presence tested as intended, a record of known type is the same place as the location stored from it |
| ScarpLocations.FindSameFinds | src/scarping/locations/scarp-locations.service.ts:51-53 | `.find` returns a candidate that passes the sameness test, and nothing only when no candidate does (specifies `ScarpLocations.FindSame`) |
| ScarpLocations.FindSameIsFirst | src/scarping/locations/scarp-locations.service.ts:51-53 | `.find` returns the first candidate that passes the sameness test (specifies `ScarpLocations.FindSame`) |
| ScarpLocations.GetLocationIfExistsFinds | src/scarping/locations/scarp-locations.service.ts:41-54 | the location found is stored under the record's name and passes the sameness test; nothing is found only when no such location passes it (specifies `ScarpLocations.GetLocationIfExists`) |
| ScarpLocations.AddInfo | src/scarping/locations/scarp-locations.service.ts:78-90 | a record's description fills in a missing or empty one and never replaces one |
| ScarpLocations.NameEntries | src/scarping/locations/scarp-locations.service.ts:104-110 | the alternate names in order, then the name, all for the new location |
| ScarpLocations.Merge | src/scarping/locations/scarp-locations.service.ts:25-31 | one loop iteration, for a given sameness test, keeps the invariants |
| ScarpLocations.MergeEffect | src/scarping/locations/scarp-locations.service.ts:25-31 | for a given sameness test, exactly one location and its name entries are inserted when no stored location passes it; otherwise at most that location's description changes |
| ScarpLocations.DescriptionNeverReplaced | src/scarping/locations/scarp-locations.service.ts:79-81 | a description, once present, is never replaced |
| ScarpLocations.SameIgnoresDescription | src/scarping/locations/scarp-locations.service.ts:56-74 | a location stays the same place for a record when only its description changes, under either test |
| ScarpLocations.UndefinedRecordAlwaysInsertedAsWritten | src/scarping/locations/scarp-locations.service.ts:25-31 | as written, a record with `undefined` coordinates is always inserted as a new location with its name entries |
| ScarpLocations.ScarpTwiceDuplicatesAsWritten | src/scarping/locations/scarp-locations.service.ts:21-32 | as written, the loop over such a record twice inserts two locations |
| ScarpLocations.MergeTwiceInsertsOnce | src/scarping/locations/scarp-locations.service.ts:21-32 | with the intended test, merging a record of known type again inserts nothing |
| ScarpLocations.ScarpTwiceInsertsOnce | src/scarping/locations/scarp-locations.service.ts:21-32 | with the intended test, the loop over a record of known type, whose coordinates are both numbers or not both known, twice inserts exactly the locations and names it inserts once |
| ScarpLocations.AddInfoToLocation | src/scarping/locations/scarp-locations.service.ts:78-90 | the tables become `AddInfo` of the old tables |
| ScarpLocations.InsertLocation | src/scarping/locations/scarp-locations.service.ts:92-102 | inserts `LocationFromRecord` with the next id |
| ScarpLocations.InsertLocationNames | src/scarping/locations/scarp-locations.service.ts:104-110 | the tables gain `NameEntries` for the new location |
| ScarpLocations.ScarpRecord | src/scarping/locations/scarp-locations.service.ts:25-31 | one loop iteration leaves the tables of `Merge` with areSameLocation as written |
| ScarpLocations.ScarpRecords | src/scarping/locations/scarp-locations.service.ts:21-32 | the loop leaves the tables of `MergeAll` with areSameLocation as written |
| ScarpLocations.Scarp | src/scarping/locations/scarp-locations.service.ts:15-34 | the GeoNames records, then the vpohid ones, then the Wikipedia ones, merged in order with areSameLocation as written |
| GeoNames.ParseGeoNamesRow | src/scarping/locations/geonames.ts:85-128 | a row with fewer than four tab-separated fields throws; otherwise the name is field 1 and the alternate names joined with ',' are field 3 |
| GeoNames.ParseFullRow | src/scarping/locations/geonames.ts:85-128 | a row written from nineteen fields parses back into them: texts in place, numbers through `Number`, alternate names split at commas |
| GeoNames.EmptyAlternateNames | src/scarping/locations/geonames.ts:111 | an empty alternate-names field gives one empty name |
| GeoNames.LocationTypeChoice | src/scarping/locations/geonames.ts:145-176 | a code in the code table decides whatever the class; only otherwise does the class; neither gives no type (specifies `GeoNames.GetLocationType`) |
| GeoNames.RecordToLocationCopies | src/scarping/locations/geonames.ts:130-140 | the record copies name, alternate names, coordinates and elevation, takes its type from the tables, and has no difficulty or description (specifies `GeoNames.GeoNamesRecordToLocation`) |
| GeoNames.ParseRows | src/scarping/locations/geonames.ts:67-68 | each line is parsed in its place |
| GeoNames.KeptIndicesAreKeptRows | src/scarping/locations/geonames.ts:69-71 | the kept positions increase and are exactly the rows that parsed and lie in a Carpathian region (`GeoNames.IsInUaCarpathians` is the region test) |
| GeoNames.ConvertRowsFails | src/scarping/locations/geonames.ts:62-76 | reading the file fails exactly when some line has fewer than four fields |
| GeoNames.ConvertRowsKeepsCarpathianRows | src/scarping/locations/geonames.ts:62-82 | the result is exactly the lines of the four regions ('25', '06', '15', '03' in 'UA'), in file order, each converted from its record (specifies `GeoNames.Convert` with `GeoNames.IsInUaCarpathians`) |
| GeoNames.PrefixFailurePersists | src/scarping/locations/geonames.ts:67-68 | once a prefix of the lines fails, the whole file fails with the same error |
| GeoNames.ParseGeonamesData | src/scarping/locations/geonames.ts:62-76 | the loop computes `ConvertRows` |
| Wikipedia.BatchesFlatten | src/scarping/locations/wikipedia.ts:41-49 | the batches put back together are the input (specifies `Wikipedia.Batches`) |
| Wikipedia.BatchesSizes | src/scarping/locations/wikipedia.ts:41-49 | every batch but the last is full, the last is not empty, and an empty input gives no batch (specifies `Wikipedia.Batches`) |
| Wikipedia.SplitIntoBatches | src/scarping/locations/wikipedia.ts:41-49 | the loop computes `Batches` |
| Wikipedia.CategoryMembersAreMembers | src/scarping/locations/wikipedia.ts:59-73 | the filter keeps exactly the articles that are neither subcategories nor the category's own article (specifies `Wikipedia.CategoryMembers`) |
| Wikipedia.CategoryMembersAppend | src/scarping/locations/wikipedia.ts:70-72 | the filter keeps listing order |
| Wikipedia.ClearCategoryNameOfPrefixed | src/scarping/locations/wikipedia.ts:63-65 | the category's own article is its name without the prefix, with spaces for underscores |
| Wikipedia.ClearTitle | src/scarping/locations/wikipedia.ts:124-239 | every cleaned title is trimmed |
| Wikipedia.RiverTagRemoved | src/scarping/locations/wikipedia.ts:234-239 | a river title "<name> (річка)" is cleaned to the name (specifies `Wikipedia.ClearRiverTitle`) |
| Wikipedia.VillageTagRemoved | src/scarping/locations/wikipedia.ts:180-187 | a settlement title "<name> (село)" is cleaned to the name (specifies `Wikipedia.ClearSettlementTitle`) |
| Wikipedia.RegionRemoved | src/scarping/locations/wikipedia.ts:180-187 | a district "(<word> район)" after the name is removed, for any word without white space |
| Wikipedia.NoRegionInPlainText | src/scarping/locations/wikipedia.ts:180-187 | text without a parenthesis holds no district |
| Wikipedia.ArticleToLocation | src/scarping/locations/wikipedia.ts:75-95 | the record holds the cleaned title, no alternate names, the category's type and the summary extract; coordinates are `undefined` exactly when the page has none; there is no elevation or difficulty; `Wikipedia.GenArticleToLocation` applies it to each fetched article |
| Wikipedia.LocationsAreRecords | src/scarping/locations/wikipedia.ts:31-37 | record i is the record of article i |
| Wikipedia.LocationsAppend | src/scarping/locations/wikipedia.ts:31-37 | converting consecutive batches gives the records of their concatenation |
| Wikipedia.ScarpCategory | src/scarping/locations/wikipedia.ts:23-39 | the records of the category's members, in listing order |
| Wikipedia.ScarpGroup | src/scarping/locations/wikipedia.ts:189-232 | the records of several categories, category after category |
| Wikipedia.ScarpWikipediaLocations | src/scarping/locations/wikipedia.ts:4-20 | lakes, rivers, mountains, passes, ranges, then settlements |
| Vpohid.NameAndType | src/scarping/locations/vpohid.ts:100-114 | for a type text other than the water one, the name is kept and the type is the table entry, or none for a text not in the table |
| Vpohid.WaterNameFirstKeyword | src/scarping/locations/vpohid.ts:116-120 | the first keyword the lower-cased name includes is cut out and gives the type, whatever later keywords the name holds (specifies `Vpohid.WaterNameAndType`) |
| Vpohid.WaterNameNoKeyword | src/scarping/locations/vpohid.ts:116-121 | a name without a keyword is kept, as a plain water object (specifies `Vpohid.WaterNameAndType`) |
| Vpohid.IncludedKeywordMatches | src/scarping/locations/vpohid.ts:117-118 | where the lower-cased name holds a keyword, the case-insensitive pattern matches the name, so a keyword found is always cut out |
| Vpohid.WaterObjectClassified | src/scarping/locations/vpohid.ts:86-120 | a water object takes the type of the first listed keyword its name includes, and loses exactly one match of it |
| Vpohid.WaterObjectUnclassified | src/scarping/locations/vpohid.ts:116-121 | a water object whose name holds no keyword keeps its name and is typed WaterObject |
| Vpohid.LakeKeywordWins | src/scarping/locations/vpohid.ts:87 | a name holding "озеро" is a lake, whatever else it holds |
| Vpohid.UnlistedTypeTexts | src/scarping/locations/vpohid.ts:76-84 | "Цікаве місце" gives no type; the spring text matches only with its leading space |
| Vpohid.FirstRegexMatch | src/scarping/locations/vpohid.ts:118 | the leftmost position where the case-insensitive keyword matches, or none |
| Vpohid.FindMapLink | src/scarping/locations/vpohid.ts:125-128 | the first link whose text is the map link text, or none |
| Vpohid.ParseCoordinates | src/scarping/locations/vpohid.ts:124-135 | throws exactly when no link has the map text; both coordinates are numbers or NaN |
| Vpohid.MapUrlCoordinates | src/scarping/locations/vpohid.ts:129-134 | for a URL `…=<lat>&…=<lon>&…`, latitude is piece 1 and longitude piece 3 |
| Vpohid.ParseLocation | src/scarping/locations/vpohid.ts:62-73 | parses exactly when heading, type text, description and a map link are present; no alternate names, elevation or difficulty; description trimmed |
| Vpohid.ParseAllMeaning | src/scarping/locations/vpohid.ts:51-57 | either every page parses, and record i is page i's, or the result is the failure of the first page that does not |
| Vpohid.ParseAllAppend | src/scarping/locations/vpohid.ts:48-58 | parsing a list in two consecutive parts gives the result of parsing it whole |
| Vpohid.ScarpLocations | src/scarping/locations/vpohid.ts:45-60 | the batch loop computes `ParseAll` over the URLs, in order, without modifying the caller's array |
| Vpohid.ScarpVpohidLocations | src/scarping/locations/vpohid.ts:7-13 | the catalogue's pages, fetched and parsed in order |
| ExcludeFields.Without | src/prisma/exclude-fields.ts:5-7 | no listed key is left; every other key keeps its value; no key is added |
| ExcludeFields.ExcludeFields | src/prisma/exclude-fields.ts:1-9 | the object's properties become `Without` of the old ones, and the same object is returned |
| ExcludeFields.RepeatedKey | src/prisma/exclude-fields.ts:5-7 | listing a key a second time deletes nothing more |
| ExcludeFields.AbsentKey | src/prisma/exclude-fields.ts:5-7 | listing a key the object lacks changes nothing |
| ExcludeFields.ExcludeTwice | src/prisma/exclude-fields.ts:5-7 | excluding the same keys twice is excluding them once |
| ExcludeFields.KeyOrder | src/prisma/exclude-fields.ts:5-7 | the order of the listed keys does not matter |

## Left out

- Network, file and DOM access are left out. This covers the report and catalogue walks, page
  downloads, the GeoNames download and line reader, and the Wikipedia API calls. Their results
  come in as inputs or as function parameters (`fetch`, `members`, the texts of a page).
- The haversine `distance` is a parameter `dist` from two points to a real number. It is
  floating-point trigonometry, and the services only compare it with 10 and 100.
- Unicode NFKD normalisation is a parameter `normalize`. `toLowerCase` covers Latin, Cyrillic
  and Ukrainian letters only, and the `i` flag of a regular expression is modelled by comparing
  lower-cased letters.
- `Number(text)` is modelled for decimal literals with an optional sign; exponents, hex and
  `Infinity` give NaN. `new Date(year, 1)` is left out: the year is kept as a number.
- NaN and `undefined` coordinates and elevations are stored as an empty (null) column.
- Queries without `orderBy` are modelled as returning rows in insertion order. The code relies on
  that order in three places: `.find` returns the first matching location, `possibleLocations[0]`
  is the first candidate, and the difficulty rows pair the report's i-th stop with the i-th
  stored route stop. A database that returned rows in another order could choose differently.
- Ids are assigned from 0 in insertion order.
- Concurrency is left out. `Promise.all` over a batch is modelled as parsing the batch in
  order; when several pages fail, the model reports the first one in list order, not the first
  rejection in time. The un-awaited report scrape is modelled as run to completion.
- `console.log` progress output is left out.
- Wikipedia.SplitIntoBatches: requires a positive batch size. With size 0 the source never
  returns on a non-empty array; the only size it is called with is 30.
- GeoNames: the fields of a row beyond the first nineteen are ignored, as the destructuring
  ignores them.
- ScarpReports.Scarp: report parsing (`scarpGlobusReports`) is an input, the sequence of parsed
  reports.
- Vpohid.ScarpVpohidLocations: the catalogue link walk (`scarpLocationLinks`,
  `parseLocationLinks`) is I/O; the links are an input.

## Findings

| source | as written | input that shows it | evidently intended | confidence | as-written member | corrected member |
|---|---|---|---|---|---|---|
| src/scarping/util.ts:50-51 | `hasCoordinates` tests only `!== null`, so a Wikipedia record whose coordinates are `undefined` counts as having coordinates; the distance to a stored location is then NaN and `areSameLocation` is false | a Wikipedia article without coordinates, scraped a second time: the location stored from it the first time has null coordinates and is not found, so a duplicate location and duplicate name entries are inserted | a record whose coordinates are `null` or `undefined` has no coordinates, so it matches a stored location without coordinates of the same type | not executed | ScarpLocations.ScarpTwiceDuplicatesAsWritten | ScarpLocations.ScarpTwiceInsertsOnce |
