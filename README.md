# Welfare resource map — verified model of its decision logic

The welfare-resource map (`script.js`) is a single-page front end. It loads a
directory of community resources from a CSV file: foundations, neighbourhood
chiefs' offices, churches and locksmiths. It places a marker for each geocoded
record, filters records and markers by search text and category button, and
plans driving directions to a chosen resource. The page is mostly glue around
Google Maps, `XMLHttpRequest` and the DOM. Its core is string parsing,
validation, filtering and a small routing state machine. This project models
that core in Dafny and proves its properties.

- `Text`: the string primitives the page relies on, written out. These are
  ECMAScript `trim`, lower-casing, `includes`, the quote-stripping `replace`,
  and `split`/`join` on one character.
- `Categories`: `mapCategory`. The four canonical categories, the ordered
  keyword table, the specification function `NormalizeCategory`, and
  `MapCategory`, the source's loop with `break` proved equal to it.
- `Records`: what `parseCSV` computes.
  - Header lookup per field (`FindHeader`) with its fixed fallback column.
  - The `||` placeholder defaulting of cells, quote stripping and trimming.
  - The per-row rules (`ParseRow`) and the records of a whole text (`Parsed`).
- `ResourceFilter`: the filter predicate of `filterResources` and the
  specification function `Filter`.
- `Loader`: `tryLoadCSV`, sequential attempts until the first status 200, and
  the built-in sample set of `useSampleData`. The network is a parameter,
  `server`, giving the response each file name would receive.
- `Directions`: `calculateRoute`, `tryRouteWithAddress`, `handleRoutingError`
  and the two `showDirectionsWith*` entry points.
  - Each is a method producing the sequence of external requests and alerts
    it causes.
  - Each method is proved equal to a specification function.
  - Geolocation, the origin prompt, the geocoder and the directions service
    are parameters.
- `WelfareApp`: the page's mutable state, a class `WelfareMap` holding the
  `resources` array and the `markers` array.
  - `ParseCSV` appends row by row in a `while` loop.
  - `UseSampleData` replaces the directory; `LoadCSV` chooses between the two.
  - `GeocodeCompleted` adds a marker.
  - `FilterResources` sets each marker's `visible` field in place.

Three details of the code that the model keeps as written:

- Every `"` and `'` is removed from name, address and phone, not only
  surrounding ones (script.js:290-292).
- `mapCategory` scans the keyword table first and then lets an exact
  canonical identifier override the result (script.js:335-348). `MapCategory`
  takes the same steps in the same order.
- A file counts as loaded only on status 200 exactly (script.js:164); every
  other status moves on to the next name.

## Model

| member | source | states |
|---|---|---|
| Text.TrimStartSpec | script.js:269 | `trimStart` keeps a suffix, dropping an all-white-space prefix and stopping at the first non-space |
| Text.TrimEndSpec | script.js:269 | `trimEnd` keeps a prefix, dropping an all-white-space suffix and stopping at the last non-space |
| Text.TrimSpec | script.js:269 | trimmed text is the middle part `s[i..j]` of the original between an all-white-space prefix and an all-white-space suffix, and has no white space at either end |
| Text.TrimEmptyIff | script.js:269 | a row trims to the empty string exactly when it consists of white space only |
| Text.TrimKeeps | script.js:314 | text already without edge white space is unchanged by trimming |
| Text.Lower | script.js:458 | lower-casing keeps the length, turns each upper-case ASCII letter into its own lower-case letter (code point + 32) and keeps every other character |
| Text.StripQuotes | script.js:290-292 | the result holds no quote character, and holds exactly the non-quote characters of the input |
| Text.StripQuotesChar | script.js:290-292 | one character is dropped when it is a quote and kept otherwise |
| Text.StripQuotesAppend | script.js:290-292 | stripping distributes over concatenation; with `StripQuotesChar` this fixes the order and number of the kept characters |
| Text.StripQuotesKeeps | script.js:290-292 | text without quotes is unchanged |
| Text.ContainsIff | script.js:336 | `includes` holds exactly when the keyword occurs at some position of the text |
| Text.Split | script.js:223 | splitting always yields at least one piece and no piece contains the separator |
| Text.JoinSplit | script.js:223-226 | joining the pieces of a split with the separator gives the original text back |
| Text.SplitJoin | script.js:272 | splitting a join of separator-free pieces gives those pieces back |
| Categories.CanonicalOf | script.js:343-348 | a result names the category whose identifier is the text; None means no identifier equals it |
| Categories.FirstKeywordAt | script.js:335-340 | the first table entry whose keyword occurs decides the scan |
| Categories.FirstKeywordNone | script.js:335-340 | the scan finds nothing exactly when no keyword of the table occurs |
| Categories.MapCategory | script.js:311-351 | the loop with `break` and the canonical override compute exactly `NormalizeCategory` |
| Categories.BlankIsFoundation | script.js:312-314 | empty or all-white-space text normalises to foundation |
| Categories.UnmatchedIsFoundation | script.js:332 | text that is neither canonical nor holds any keyword normalises to foundation |
| Categories.FirstMatchWins | script.js:335-340 | for non-canonical text, the first keyword in table order that occurs decides the category |
| Categories.CanonicalWins | script.js:343-348 | a canonical identifier, after trimming and ASCII lower-casing, names its own category |
| Categories.FoldedKeeps | script.js:314 | trimmed text without upper-case letters is its own folded form |
| Categories.NormalizeIdent | script.js:343-348 | normalising a canonical identifier gives its category back |
| Categories.IdentIsFolded | script.js:343-346 | the four identifiers are lower-case and have no edge white space |
| Categories.NormalizeIdempotent | script.js:311-351 | normalising the identifier of a normalised result returns the same category |
| Categories.FundKeywordIsFoundation | script.js:316-318 | non-canonical text containing `基金` (so also `基金會`) is a foundation, whatever else it holds |
| Records.FindHeaderSpec | script.js:230-250 | the header index is the first position whose header names the field, or -1 exactly when none does |
| Records.ColumnChoice | script.js:230-264 | each field's column is the first matching header, otherwise its fixed default (name 1, address 2, phone 3, category 4) |
| Records.CleanIsClean | script.js:290-292 | a cleaned field has no quote character and no edge white space |
| Records.CleanKeeps | script.js:290-292 | text that is already clean is unchanged by cleaning |
| Records.BlankCleansEmpty | script.js:290-292 | a field of only white space and quotes cleans to the empty string |
| Records.UnknownNameClean | script.js:283 | the name placeholder survives cleaning |
| Records.UnknownAddressClean | script.js:285 | the address placeholder survives cleaning, so the placeholder test at line 295 sees it |
| Records.UnknownPhoneClean | script.js:286 | the phone placeholder survives cleaning |
| Records.AddressRequired | script.js:285-298 | a row whose address cell is missing, empty, or only white space and quotes yields no record |
| Records.PlaceholderFields | script.js:283-286 | in a kept record, a missing or empty name or phone cell gives its placeholder, and a missing or empty category cell gives `foundation` |
| Records.BlankFieldsKept | script.js:283-292 | in a kept record, a name or phone cell that is present but only white space and quotes passes the `\|\|` default and cleans to the empty string |
| Records.ParseRowAccepts | script.js:267-298 | a line is kept exactly when it is not blank, has at least three fields and a cleaned address neither empty nor `未知地址`; a kept record has id `i`, clean fields and the normalised category cell |
| Records.RowResultsSound | script.js:267-301 | the header line yields nothing, and every other line's record is well-formed with its line number as id |
| Records.CollectFrom | script.js:267-301 | each record collected from the first `n` lines is the outcome of the line its id names, with id below `n`; ids strictly increase |
| Records.CollectHas | script.js:301 | every record that one of the first `n` lines yields is among those collected |
| Records.ParsedSpec | script.js:267-305 | one parse yields well-formed records with strictly increasing ids `1 <= id < lines`, one for each line the row rules keep and for no other line |
| ResourceFilter.MatchesSplits | script.js:462-474 | a record matches exactly when it passes the category test and the text test separately |
| ResourceFilter.FilterMembers | script.js:462-474 | a record is in the filter result exactly when it is in the directory and matches |
| ResourceFilter.FilterEverything | script.js:464-467 | empty search text with category `all` keeps the whole directory, in order |
| ResourceFilter.FilterIsSubsequence | script.js:462 | every filter result is an order-preserving subsequence of the directory |
| ResourceFilter.FilterSplits | script.js:462-474 | filtering by text and category equals filtering by text with `all`, then by category with empty text |
| ResourceFilter.FilterNarrows | script.js:462-474 | a record is in `filter(t, c)` exactly when it is in both `filter(t, "all")` and `filter("", c)` |
| Loader.TryLoadCSV | script.js:148-175 | names are tried strictly in order; every name before the last one tried failed; the first status 200 stops the attempts and delivers its text; None exactly when every name fails, after all were tried |
| Loader.SampleShape | script.js:180-209 | the sample set has four records, ids 1 to 4, categories foundation, chief, church, locksmith in that order |
| Directions.RoutingErrorShape | script.js:627-651 | every routing-failure message starts with `無法規劃路線` and is longer; an unknown status gives `無法規劃路線：` followed by the status |
| Directions.UnknownStatusRecoverable | script.js:646-647 | an unknown status can be read back verbatim from its message |
| Directions.AddressRouteShape | script.js:607-624 | the address attempt issues exactly one route request, to the address, and no geocode |
| Directions.RouteRequests | script.js:582-603 | routing issues the coordinate request and then the address request only after its failure, or the address request alone; at most two requests, no geocode |
| Directions.CoordinatesFirst | script.js:582-603 | the coordinate request occurs exactly when lat and lng are both non-zero; the address request exactly when they are not or the coordinate request failed |
| Directions.RouteOutcome | script.js:591-622 | routing ends with the render of the succeeding request or with the alert of the address request's failure status |
| Directions.AddressRouteNoPrompt | script.js:560-624 | route planning itself never prompts for an origin |
| Directions.NoAnswerNoRequest | script.js:529-535 | a cancelled or empty origin prompt gives exactly the no-origin alert, with no geocode and no route request |
| Directions.CustomRequests | script.js:529-557 | a given origin is geocoded exactly once; on failure the unknown-origin alert follows and no route is requested; on success the route requests are those of routing from the found position |
| Directions.CustomBound | script.js:529-557 | the custom-origin flow issues at most two route requests |
| Directions.CurrentLocated | script.js:502-517 | a located user is never prompted, nothing is geocoded, and the route requests are those of routing from the located position |
| Directions.CurrentFallback | script.js:490-494 | without a position, the flow is the matching alert followed by the whole custom-origin flow |
| Directions.CurrentFallbackRequests | script.js:519-523 | without a position, the route and geocode requests are those of the custom-origin flow, still at most two routes |
| Directions.NoRouteEitherWay | script.js:582-651 | from a known position to a known coordinate with no route at all, the page tries coordinates, then the address, then alerts the zero-results message |
| Directions.TryRouteWithAddress | script.js:607-624 | the events of the address attempt are exactly those of `AddressRoute` |
| Directions.CalculateRoute | script.js:560-604 | the events of route planning are exactly those of `RouteEvents` |
| Directions.ShowDirectionsWithCustomLocation | script.js:529-557 | the events of the custom-origin flow are exactly those of `CustomEvents` |
| Directions.ShowDirectionsWithCurrentLocation | script.js:487-526 | the events of the current-location flow are exactly those of `CurrentEvents` |
| WelfareApp.Marker.constructor | script.js:364-376 | a new marker stands for its record and is visible |
| WelfareApp.WelfareMap.constructor | script.js:59-78 | the page starts with no resources and no markers |
| WelfareApp.WelfareMap.ParseCSV | script.js:221-308 | the directory becomes what it held before followed by `Parsed` of the text; markers are untouched |
| WelfareApp.WelfareMap.AppendRows | script.js:267-305 | the row loop appends, in line order, the record of every line that yields one |
| WelfareApp.ReadRow | script.js:268-301 | one pass of the row loop yields exactly the line's `ParseRow` outcome |
| WelfareApp.LocateColumns | script.js:230-264 | the four `findIndex` scans with their fallbacks give exactly `LayoutOf` the headers |
| WelfareApp.WelfareMap.UseSampleData | script.js:178-218 | the directory becomes exactly the four sample records |
| WelfareApp.WelfareMap.LoadCSV | script.js:108-117 | names are tried in order and every name before the last one tried failed; the text parsed is the body of the first name answering 200, a non-empty one appended as parsed and an empty one ignored; when no name answers 200 all were tried and the sample records replace the directory |
| WelfareApp.WelfareMap.GeocodeCompleted | script.js:357-416 | an OK geocode appends one fresh visible marker for the record after the existing ones; any other status changes nothing |
| WelfareApp.WelfareMap.FilterResources | script.js:457-480 | the result is `Filter` of the directory with the lower-cased search text; each marker is visible exactly when its record's id is in the result |
| WelfareApp.VisibleIffMatches | script.js:477-480 | with unique ids, a record's marker is shown after filtering exactly when the record matches |
| WelfareApp.ParsedIdsUnique | script.js:282 | the ids of one parse are pairwise distinct |

## Left out

- Google Maps objects are not modelled because they are foreign library calls. This covers `Map`, `Geocoder`, `Marker` icons and colours (`categoryColors`), `InfoWindow` HTML, `panTo`/`setZoom`, and `DirectionsRenderer` detaching and rendering. Geocode and route results are status inputs, and a rendered route is a `Render` event.
- `XMLHttpRequest` is not modelled because it is network I/O. Only a completed response's status and body, given by `server`, are modelled. Ready states and asynchronous completion are left out.
- DOM work is not modelled because it is UI plumbing: `updateResourceList`, `addMobileControls`, the direction-panel and toggle-button styling, `isMobileDevice`, and event-listener wiring. `alert` and `prompt` are reduced to `Alert` events and an optional prompt answer.
- `navigator.geolocation` options and the 15-second timeout are not modelled. Geolocation is one of three outcomes: unsupported, failed, or a position.
- The asynchronous order of per-record geocode callbacks, and the order of markers that results from it, is not modelled. `GeocodeCompleted` models one callback, and any interleaving is a sequence of such calls. The request each accepted row or sample record issues (script.js:304, script.js:212-214) is not recorded.
- Overlapping directions requests are not modelled, because each flow is modelled on its own. Every `calculateRoute` replaces the global `directionsRenderer` (script.js:570-576). A route callback from an earlier request then draws on the newer renderer (script.js:592, script.js:617).
- Latitude and longitude are `real` values. NaN and `undefined` are not modelled, and `destLat && destLng` is "both non-zero". The `position` the geocoder attaches to a record (script.js:360) is not kept on `Resource`.
- `debugLog` and `window.onerror` are logging with timestamps and are not modelled.
- Lower-casing is ASCII only, not full Unicode `toLowerCase`. The Chinese keywords and headers are unaffected. `toString()` is the identity on strings.
- The `callback(null)` path of `tryLoadCSV` only logs, so `LoadCSV` is modelled as "no data, then sample data".
- A concrete run of `ParsedSpec` on a small literal CSV text is not stated as a lemma, because evaluating the string functions on a literal is beyond the solver budget. The general row and parse lemmas cover the case.
