# Av-trainer flight-planning core, modelled in Dafny

The Av-trainer page is a browser flight-planning calculator for light
aircraft. This project models its computational core as pure Dafny functions
over exact reals, and proves what each piece promises.

- **Performance interpolation** (`Interpolation`). A takeoff or landing chart is a grid of pressure altitudes × temperatures. Each cell holds a ground roll and a distance over a 50-ft obstacle, or is blank. A query is clamped to the grid and bracketed by the fixed index rule. It answers "N/A" if any of the four surrounding cells is blank; otherwise it is bilinearly interpolated.
- **Closed-form formulas** (`Formulas`): standard temperature, pressure and density altitude; the wind angle to a runway or course; fuel required; and weight-and-balance totals and centre of gravity.
- **Profile library** (`Profiles`, with `Text` for `trim`, `toUpperCase` and `parseInt`): validated save as overwrite-or-append, and confirmed delete.
- **Aircraft catalog** (`Catalog`, `Seed`): the registry of model records, the built-in Cessna 150N record, lookups, whole-record upsert, listing, and the merge of a saved copy at start-up.
- **POH digitiser** (`PohExtractor`): the three stand-in extractors, the success conjunction, and the selective write-back with its skeleton record.
- **Weather service** (`Weather`): METAR and TAF record parsing, and the choice of the runway most into the wind.

Every `.dfy` file is one module; the files are verified together. `Basics`
holds `Option`, the first-match search used for `findIndex` and for the TAF
loop, and two facts about products and quotients of reals.

Notes on how the model reads the code:

- The `performanceData` literal at the top of `script.js` and the C150N charts in `aircraft-data.js` are identical. They are defined once, as `Seed.C150NTakeoff` and `Seed.C150NLanding`.
- For the altitude axis, the rule at `script.js:655` ("index 0 and above the first line becomes 1") is subsumed by the unconditional rule on the next line. Both axes therefore use the same `Interpolation.BracketIndex`. The enclosing interval is characterised independently by `Interpolation.Encloses`.
- The comment at `aircraft-data.js:132` says built-in models are not overwritten, but `Object.assign` does overwrite them. The model follows the code: `Catalog.LoadFromStorage` replaces a saved built-in record. What this overwrite preserves is a record that `addModel` put under a built-in code, such as an edited C150N. Digitisation never creates a record of a new code, because it writes back only for C150N (`PohExtractor.DigitizeSucceedsOnlyForReference`).
- JavaScript object keys enumerate in insertion order. A catalog is therefore an ordered list of codes plus a map, and `Catalog.Valid` ties the two together. The special ordering of integer-like keys is not modelled.
- A sub-record is `Absent` (`undefined`/`null`), `Placeholder` (the empty object `{}`, which is truthy) or `Data`. The lookups' `|| null` maps only `Absent` to `Absent`.

## Model

| member | source | states |
|---|---|---|
| Basics.FindIndex | script.js:653 | `findIndex`: -1 exactly when no element satisfies the test; otherwise the first index that does |
| Interpolation.Clamp | script.js:649-650 | the clamped value lies in [lo, hi]; it is the value itself when already inside, and the nearer bound when outside |
| Interpolation.EnclosingIntervalUnique | script.js:653-660 | on a strictly increasing grid at most one interval encloses a value, counting the first interval as closed and the others as half-open |
| Interpolation.BracketIndex | script.js:653-660 | the index is in [1, len-1]; for an in-range value on a strictly increasing grid its interval encloses the value; a value at or below the first line gives 1; a value above every line gives the last index |
| Interpolation.GridLineEnclosed | script.js:653-660 | every grid line is enclosed by the interval ending at it, except the first, which is enclosed by the first interval |
| Interpolation.Fraction | script.js:676-677 | within the interval the fraction is in [0, 1]; it is 0 at the lower line and 1 at the upper |
| Interpolation.Lerp | script.js:697-701 | the result moves from a by the fraction f of the distance from a to b |
| Interpolation.LerpStaysBetween | script.js:697-701 | for f in [0, 1] a linear blend lies between its two ends |
| Interpolation.Bilinear | script.js:697-701 | `bilinear` returns q11 at (0,0), q21 at (1,0), q12 at (0,1) and q22 at (1,1); for fractions in [0,1] it lies between the least and greatest corner |
| Interpolation.Interpolate | script.js:639-695 | no chart gives N/A; otherwise, for the interval pair enclosing the clamped query, the reading exists exactly when all four corners are printed, and it is then the bilinear blend of both distances with one shared pair of fractions |
| Interpolation.ReadingAtBracket | script.js:653-674 | the reading is determined by the bracketing cell: N/A if a corner is blank, else the blend there |
| Interpolation.ClampedQueryReadsBoundary | script.js:644-650 | a query outside the chart on either axis reads the same as the query moved to the nearest edge |
| Interpolation.GridPointExact | script.js:663-695 | at a grid point the reading exists exactly when the cell the point brackets into is complete, and it is then the printed value at that point |
| Interpolation.ReadingWithinCorners | script.js:676-701 | each distance read lies between the least and greatest of its four corners |
| Interpolation.ColumnRises | aircraft-data.js:35-57 | if each printed cell has a printed cell below it that is no larger, every printed cell has every cell below it printed and no larger |
| Interpolation.RowByRowSuffices | aircraft-data.js:35-57 | gap-free columns that rise from each row to the next rise between any two printed altitudes |
| Interpolation.LerpMonotoneInFraction | script.js:697-701 | for a ≤ b a larger fraction never gives a smaller blend |
| Interpolation.LerpMonotoneInEnds | script.js:697-701 | raising either end never lowers the blend |
| Interpolation.FractionMonotone | script.js:676-677 | within one interval the fraction grows with the value |
| Interpolation.EnclosingIntervalMonotone | script.js:653-660 | a larger value is never enclosed by an earlier interval |
| Interpolation.BilinearByRows | script.js:697-701 | the blend of two altitude rows, each first blended across temperature, equals `bilinear` |
| Interpolation.BlendByRows | script.js:676-692 | a cell reading equals the altitude blend of its two temperature-blended rows |
| Interpolation.RowsRise | script.js:697-701 | in a chart rising with altitude a higher row blends to at least a lower row, when both rows are printed at the two temperatures |
| Interpolation.BlendRises | script.js:676-692 | in a chart whose columns rise with altitude where printed, the reading at a higher altitude, in the same or a higher cell, is at least the lower one, whenever both cells have all four corners printed |
| Interpolation.MonotoneInAltitude | script.js:639-701 | for a fully printed chart rising with altitude, the distance read never decreases as pressure altitude increases at a fixed temperature |
| Interpolation.AlwaysAnswers | script.js:663-674 | a chart with every cell printed never reads N/A |
| Interpolation.MonotoneWhereAvailable | script.js:639-701 | in a chart rising with altitude, with or without blank cells, of two available readings at one temperature the higher-altitude one is at least the other, across cells as well as within one |
| Interpolation.Blend | script.js:669-692 | at each of the four corners of its cell the blend is that printed cell, and inside the cell both distances stay within the range of the four corners |
| Interpolation.ReadingInCell | script.js:663-674 | a query inside the chart reads the blend of the cell enclosing it when all four corners are printed, and N/A otherwise |
| Interpolation.SameClampedPoint | script.js:644-650 | two queries that clamp to the same point give the same reading |
| Interpolation.BilinearAtCentre | script.js:697-701 | halfway along both axes `bilinear` gives the mean of the four corners |
| Interpolation.MidpointOfInterval | script.js:653-677 | the middle of an interval is enclosed by that interval alone, is left alone by clamping, is bracketed to it, and sits at fraction one half |
| Interpolation.CentreIsCornerMean | script.js:639-701 | for any chart, at the centre of a cell whose four corners are printed, each distance read is the mean of its four corners |
| Interpolation.SquareCentre | script.js:639-701 | on a 2×2 chart with corners 100/200, 110/210, 120/220 and 130/230 the centre reads 115 / 215 |
| Interpolation.CentreUnavailableWithMissingCorner | script.js:669-674 | one blank corner makes the whole cell N/A even though the other three are printed |
| Catalog.GetPerformanceData | aircraft-data.js:88-90 | the code's performance record, or null for an unknown code |
| Catalog.GetFuelData | aircraft-data.js:93-95 | the code's fuel record, or null for an unknown code |
| Catalog.GetWeightBalanceData | aircraft-data.js:98-100 | the code's weight-and-balance record, or null for an unknown code |
| Catalog.AddModel | aircraft-data.js:103-106 | the record under the code becomes exactly the data given; every other code and record is unchanged; a new code is enumerated last |
| Catalog.LookupsAfterAdd | aircraft-data.js:88-106 | after an upsert the three lookups of that code return the new parts, and lookups of other codes are unchanged |
| Catalog.LastWriteWins | aircraft-data.js:103-106 | a second upsert of a code erases the first with no field merge |
| Catalog.GetAvailableModels | aircraft-data.js:109-115 | one entry per registered code in key order, with the code's name and category; as many entries as models, none repeated |
| Catalog.DistinctCodesCount | aircraft-data.js:109-115 | the number of keys equals the number of models |
| Catalog.AssignAll | aircraft-data.js:133 | `Object.assign`: the result's records are the old ones overridden by the source's, key by key |
| Catalog.LoadFromStorage | aircraft-data.js:127-138 | a missing or unreadable saved copy leaves the registry unchanged; a readable one overrides it code by code, built-in codes included |
| Catalog.LoadMergePerCode | aircraft-data.js:127-138 | saved codes take the saved record, other codes keep theirs, and no code is lost |
| Seed.InitialValid | aircraft-data.js:6-85 | the built-in registry is well formed |
| Seed.SeedChartsShape | aircraft-data.js:11-57 | both C150N charts have 9 increasing altitudes, 5 increasing temperatures and 9×5 cells; takeoff is blank exactly at (7000, 40), (8000, 30) and (8000, 40); landing has no blank |
| Seed.LandingChartRises | aircraft-data.js:35-57 | the landing chart is fully printed and every landing distance grows from each altitude row to the next |
| Seed.LandingDistanceRisesWithAltitude | aircraft-data.js:35-57 | at any temperature the landing chart always gives a reading, and neither distance decreases as pressure altitude rises |
| Seed.TakeoffChartRises | aircraft-data.js:12-33 | the takeoff chart has blank cells, yet each of its columns rises with altitude as far as it is printed |
| Seed.TakeoffDistanceRisesWhereAvailable | aircraft-data.js:12-33 | wherever the takeoff chart gives two readings at one temperature, neither distance decreases with pressure altitude |
| Seed.TakeoffHighHotUnavailable | aircraft-data.js:29-32 | takeoff at 7500 ft and 35 °C reads N/A because of the blank cells |
| Seed.TakeoffClampsToFirstCell | aircraft-data.js:16 | takeoff below sea level and below 0 °C reads the first printed cell, 655 / 1245 ft |
| Seed.LandingClampsToLastCell | aircraft-data.js:56 | landing above 8000 ft and above 40 °C reads the last cell, 655 / 1385 ft |
| Seed.InitialCatalogLookups | aircraft-data.js:7-100 | the built-in registry lists the Cessna 150N and answers its lookups; any other code looks up as null |
| Seed.PageConstantsAgreeWithSeed | script.js:558-589 | the page's fuel allowances and station arms equal the built-in model's fuel and arm records |
| Formulas.FallbackReadingsDiffer | script.js:479-485 | `parseFloat(x) \|\| d` differs from "d only when x does not parse" exactly on an entered zero with a non-zero d |
| Formulas.OrFallbackAsWritten | script.js:479-485 | `parseFloat(x) \|\| d`: an entry that parses to a non-zero number is used; a missing entry and an entered zero both give d |
| Formulas.OrFallback | script.js:479-485 | the intended reading: any entry that parses is used, zero included; only a missing entry gives d |
| Formulas.ComputeAtmosphere | script.js:487-494 | standard temperature is 15 − 1.98 °C per 1000 ft of field altitude; pressure altitude exceeds field altitude by 1000 ft per inHg below 29.92; density altitude exceeds pressure altitude by 120 ft per degree of OAT above standard, so exactly when OAT is warmer than standard |
| Formulas.StandardDay | script.js:487-494 | standard temperature falls 1.98 °C per 1000 ft; on a standard day density altitude is the field altitude |
| Formulas.AtmosphereFromEntriesAsWritten | script.js:479-494 | as written, a blank or zero OAT is read as 15 °C; with all three entries given and setting and OAT non-zero, the atmosphere of those entries |
| Formulas.AtmosphereFromEntries | script.js:479-494 | with every entry given, the atmosphere of those entries; with none given, that of sea level, 29.92 inHg and 15 °C |
| Formulas.BlankEntryReadsAsFallback | script.js:479-485 | each field falls back on its own whatever the others hold: a blank altitude reads as 0 ft, a blank setting as 29.92 inHg, a blank OAT as 15 °C |
| Formulas.BlankOrZeroReadsAsFallbackAsWritten | script.js:479-485 | as written each field also falls back on its own, and an entered zero reads exactly like a blank: 0 ft, 29.92 inHg, 15 °C |
| Formulas.ZeroOatReadAsFifteen | script.js:485 | at sea level and 29.92 inHg an entered 0 °C shows density altitude 0 ft as written, -1800 ft as intended |
| Formulas.OnlyTemperatureReadingDiffers | script.js:479-485 | apart from a zero setting or a zero OAT, the as-written and intended readings agree |
| Formulas.ReferenceHeading | script.js:531-534 | the heading is the runway number times ten, except on the cruise panel, where it is the true course as entered |
| Formulas.AngleDifference | script.js:537-539 | the angle is the absolute difference between wind and heading when that is at most 180, and 360 minus it otherwise; for directions in [0, 360] it lies in [0, 180] and is the shorter way round |
| Formulas.AngleDifferenceSymmetric | script.js:537-539 | the angle does not depend on which of the two directions is the wind |
| Formulas.WindAngle | script.js:518-539 | no angle exactly when an entry does not parse; otherwise the fold of the wind direction against the reference heading of the leg, in [0, 180] for directions in range |
| Formulas.WindScenarios | script.js:505-539 | wind 270 on runway 27 is 0°, wind 180 on runway 27 is 90°, and wind 350 on a 010 course is 20° |
| Formulas.PlanFuel | script.js:553-571 | with cruise time fixed at zero, cruise fuel is 0 and 3.55 gal are required; required plus remaining is the fuel on board; remaining is non-negative exactly when the fuel on board covers the allowances |
| Formulas.WeightAndBalance | script.js:576-611 | fuel weighs 6 lb per gallon; total weight and moment are the sums over the five stations; CG times total weight is the total moment when something is loaded, and CG is 0 otherwise |
| Formulas.FiveStationTotals | script.js:609-610 | the station sums are the page's five-term totals |
| Formulas.MomentBetweenArms | script.js:596-610 | with no negative weight the total moment lies between total weight times the least and the greatest arm |
| Formulas.CgBetweenArms | script.js:596-611 | with no negative entry the CG lies between the foremost and the aftmost arm |
| Formulas.EmptyPlusFuelScenario | script.js:576-611 | 1500 lb at 33.07 in with 30 gal gives 1680 lb, 57201 lb-in and a CG of 57201/1680 in |
| Text.TrimStart | script.js:209 | the result is a suffix of the input that does not start with white space, and everything removed is white space |
| Text.TrimEnd | script.js:209 | the result is a prefix of the input that does not end with white space, and everything removed is white space |
| Text.Trim | script.js:209 | `trim` returns a contiguous slice of the input with only white space outside it on both sides, and no white space at either of its own ends |
| Text.TrimmedIsFixed | script.js:209 | a string with no white space at either end is its own trim |
| Text.UpperChar | script.js:209 | each ASCII lower-case letter becomes the upper-case letter at the same place in the alphabet; every other character is kept as it is |
| Text.ToUpper | script.js:209 | `toUpperCase` keeps the length, upper-cases each character on its own, leaves no lower-case ASCII letter, and keeps a string free of surrounding white space |
| Text.ParseIntOfDigits | script.js:212 | `parseInt` of a non-empty run of decimal digits is the number they write |
| Text.DecimalRoundTrip | script.js:212 | the digits of a numeral read back to the number |
| Text.ParseIntRoundTrip | script.js:212 | `parseInt` inverts the decimal numeral |
| Text.LeadingZeroIgnored | weather-service.js:171 | a leading zero does not change the number a run of digits writes |
| Text.ParseInt | script.js:212 | `parseInt` of an empty or all-white-space string is NaN |
| Text.ParseMagnitude | weather-service.js:170 | the digits after the sign are NaN exactly when they are empty, do not start with a decimal digit, or are a `0x` prefix not followed by a hexadecimal digit |
| Text.NoNumberReadsNaN | weather-service.js:170 | `parseInt` is NaN when no decimal digit follows the leading white space and sign, and a number when one does and no `0x` prefix starts there |
| Text.LeadingSpaceIgnored | script.js:212 | white space in front of the number never changes what `parseInt` reads |
| Text.ReadsFromFirstNonSpace | script.js:212 | `parseInt` depends only on what follows the leading white space |
| Text.TrailingTextIgnored | script.js:212 | digits followed by text that starts with neither a digit nor an `x` read as the digits alone |
| Text.MinusNegates | script.js:212 | a leading minus negates what the rest reads as, and a rest that is NaN stays NaN |
| Text.PlusDigits | script.js:212 | a leading plus sign does not change the number read |
| Text.HexPrefix | script.js:212 | a `0x` prefix makes the digits after it read in base 16 |
| Profiles.NormalizeRegistration | script.js:209 | the saved registration is the trimmed entry with each character upper-cased in place, so it has no surrounding white space and no lower-case ASCII letter |
| Profiles.NormalizeIdempotent | script.js:209 | normalising a saved registration again changes nothing |
| Profiles.SaveEntry | script.js:214-227 | the save is refused exactly when the registration is empty or a number did not parse; a non-negative edit index overwrites that slot only and keeps the length; anything else, a NaN index included, appends after the unchanged library |
| Profiles.SaveProfile | script.js:207-227 | the typed registration is refused exactly when its trim is blank or a number did not parse; otherwise the profile saved carries the trimmed, upper-cased registration |
| Profiles.DeleteProfile | script.js:258-259 | a confirmed delete removes exactly the entry at the index and keeps the others in order; an index past the end removes nothing |
| Profiles.DeleteUndoesAdd | script.js:219-259 | deleting the profile just appended under a non-empty registration restores the library |
| Profiles.SecondEditWins | script.js:221-223 | two edits of the same slot leave only the second |
| Profiles.BlankRegistrationRejected | script.js:214-217 | a registration of blanks is refused |
| PohExtractor.ExtractPart | poh-extractor.js:19-49 | success exactly for the C150N code while that model is registered, with that model's part; otherwise the no-data error, or the extraction failure when the C150N record is missing |
| PohExtractor.ExtractPerformanceData | poh-extractor.js:19-49 | succeeds only for C150N and then returns what the performance lookup returns; other codes get "No performance data available for this model" |
| PohExtractor.ExtractFuelData | poh-extractor.js:52-75 | succeeds only for C150N and then returns what the fuel lookup returns; other codes get "No fuel data available for this model" |
| PohExtractor.ExtractWeightBalanceData | poh-extractor.js:78-101 | succeeds only for C150N and then returns what the weight-and-balance lookup returns; other codes get "No W&B data available for this model" |
| PohExtractor.Overlay | poh-extractor.js:159-171 | a part is replaced only by a successful result, and is kept when the result is missing or failed |
| PohExtractor.UpdateAircraftData | poh-extractor.js:144-171 | an unknown code first gets a skeleton named by the code, with category "Unknown" and empty parts; then exactly the successful parts are written; name, category and other models are untouched |
| PohExtractor.FailedUpdateOnlyRegisters | poh-extractor.js:146-171 | with no successful result, a known code is left as it is and an unknown one gains only its skeleton |
| PohExtractor.UpdateIdempotent | poh-extractor.js:144-171 | writing the same results twice is the same as writing them once |
| PohExtractor.DigitizePOH | poh-extractor.js:104-141 | success is the conjunction of the three extraction successes, and the update is applied exactly when it holds |
| PohExtractor.DigitizeSucceedsOnlyForReference | poh-extractor.js:29-132 | digitisation succeeds exactly for C150N while it is registered |
| PohExtractor.DigitizeLeavesCatalogUnchanged | poh-extractor.js:104-171 | digitisation writes back the very parts it read, so the registry is unchanged |
| PohExtractor.DigitizeBuiltIn | poh-extractor.js:104-141 | against the built-in registry, C150N succeeds with its seeded charts and any other code fails with the no-data message |
| Weather.OrElse | weather-service.js:110 | `a \|\| b` on strings: `a` when present and non-empty, else `b` |
| Weather.WindDirection | weather-service.js:120 | a direction in degrees is kept; `VRB` or a missing direction reads as 0 |
| Weather.WindSpeed | weather-service.js:121 | a missing wind speed reads as 0 |
| Weather.AltimeterInHg | weather-service.js:111-114 | a setting above 800 is converted from hPa by 0.02953; any other setting passes through; a missing one stays missing |
| Weather.HectopascalConversion | weather-service.js:113 | converted hPa settings keep their order, and 1013.25 hPa comes within 0.002 of 29.92 inHg |
| Weather.ParseMetar | weather-service.js:108-127 | no record gives no report; otherwise each field is copied or defaulted as described, with flight rules from `fltCat`, else `fltcat`, else `UNK` |
| Weather.VariableWindReadsAsNorth | weather-service.js:120-121 | a variable, a missing and a 0° wind direction give the same report, and so do a missing and a zero speed |
| Weather.FlightRulesFallback | weather-service.js:110 | the flight category falls back from `fltCat` to `fltcat` to `UNK`, and is never empty |
| Weather.SelectForecast | weather-service.js:132-141 | the first period with timeFrom ≤ t < timeTo, in milliseconds; the first period when none covers t; none for an empty list |
| Weather.ParseTaf | weather-service.js:129-152 | null data, a missing forecast list or an empty one gives no report; otherwise the wind, visibility and clouds come from the selected period, with missing clouds read as an empty list |
| Weather.CoveringPeriodReported | weather-service.js:133-140 | when exactly one period covers t, its wind is reported wherever it sits in the list |
| Weather.AsRunway | weather-service.js:161-167 | a bare designator becomes a runway with that id and no length; a runway record is kept |
| Weather.StripSides | weather-service.js:170 | removing L, R and C leaves none of them and never lengthens the id; a one-character id is dropped exactly when it is a side letter |
| Weather.StripSidesDistributes | weather-service.js:170 | the id is stripped character by character: stripping a concatenation strips both parts and keeps their order |
| Weather.StripSidesKeepsPlainId | weather-service.js:170 | an id with no L, R or C is kept unchanged |
| Weather.Heading | weather-service.js:170-171 | the heading is NaN exactly when the stripped id does not read as a number, and is otherwise ten times that number |
| Weather.FirstArgMax | weather-service.js:156-178 | with the best score starting below every number and only a strictly greater score replacing it: no choice exactly when no heading is a number, otherwise the first index of greatest score |
| Weather.DetermineRunway | weather-service.js:154-180 | null without a wind direction or with a missing or empty list; otherwise the first runway of greatest score, and null exactly when no designator carries a number |
| Weather.FirstBestUnique | weather-service.js:173-177 | only one runway is the first of greatest score |
| Weather.TiesKeepEarlier | weather-service.js:173-177 | of two runways with the same heading, the later one is never chosen |
| Weather.NumberedDesignatorHeading | weather-service.js:170-171 | a designator made of a number followed by side letters has ten times that number as its heading |
| Weather.ParallelDesignators | weather-service.js:170-171 | `24L` and `24R` both have heading 240 |
| Weather.ZeroPaddedDesignator | weather-service.js:170-171 | `06R` has heading 60 |
| Weather.UnnumberedDesignator | weather-service.js:169-177 | a designator whose stripped id does not continue with a decimal digit after its white space and sign has a NaN heading and is never chosen |
| Weather.LetteredDesignator | weather-service.js:169-170 | an id with no side letter that starts with neither white space, a sign nor a digit has a NaN heading |
| Weather.SideLetterDesignator | weather-service.js:169-170 | a lone side letter such as `L` strips to the empty string and has a NaN heading |
| Weather.HelipadDesignator | weather-service.js:169-170 | the helipad id `H1` has a NaN heading |
| Weather.CompassDesignator | weather-service.js:169-170 | the compass-point id `NW` has a NaN heading |

## Left out

- Page wiring is not modelled: event listeners, modals, dropdowns, dark mode, `alert`, `updateOutput` and the redraws. Inputs arrive as values, and a field that does not parse is `None`.
- Persistence is not modelled. `localStorage` reads and writes, and JSON encoding and decoding, become the `Catalog.Stored` value (nothing saved, unreadable, or a parsed registry). The model takes the stored registry as an input. It does not model the round trip in which `saveToStorage` (`aircraft-data.js:118-121`) writes the registry that a later `loadFromStorage` reads back, nor the writes of the profile library.
- Network access is not modelled: `fetch`, the CORS proxy, `getStationInfo` and `getWeather`. Parsed API records arrive as `Weather.MetarData` and `Weather.TafData` values.
- The asynchronous machinery, `Date` timestamps and `console` logging of the digitiser are not modelled. So is the never-read document argument.
- `showManualEntryInterface` is not modelled, because it is page markup.
- Trigonometry is not modelled. The crosswind and headwind components in `calculateWind` are left out. `Weather.DetermineRunway` takes the headwind score as a parameter `score(windDir, heading)` and proves only the choice and the tie rule.
- IEEE double rounding, `toFixed` and `Math.round` are not modelled: arithmetic is exact on `real`.
- Interpolation.Interpolate: requires a well-formed chart (two or more strictly increasing lines per axis and matching dimensions), and charts that are not well formed are not modelled. What the code does with them varies: an axis with fewer than two lines reads outside its arrays, while a strictly decreasing axis such as `[8000, 0]` clamps every query to its first line and reads a finite value from row 0.
- Profiles.SaveEntry: requires a non-negative edit index to lie within the library. The code would create a sparse array past the end, and its edit form never produces such an index.
- Profiles.SaveProfile: requires the same of the edit index, for the same reason.
- Text.UpperChar: upper-cases ASCII letters only. Unicode case mapping, which can also change the string's length, is not modelled.
- Weather.ParseMetar: numeric members arrive already numeric. A string member that `parseFloat` turns into NaN, and a `wdir` string other than `VRB`, are not modelled. Visibility and elevation pass through unchanged.
- Weather.ParseTaf: periods whose bounds are not whole seconds are not modelled, and neither are entries that are not objects.
- Catalog.AddModel: integer-like codes, which JavaScript enumerates before other keys, are not modelled. Every code is enumerated in insertion order.

## Findings

| source | as written | input that shows it | evidently intended | confidence | as-written member | corrected member |
|---|---|---|---|---|---|---|
| script.js:485 | `parseFloat(oat) \|\| 15` falls back to 15 °C when the entry is 0, because 0 is falsy | OAT entered as 0 at a sea-level field with 29.92 inHg: density altitude 0 ft instead of -1800 ft | fall back to 15 °C only when the entry does not parse | high; not executed | Formulas.AtmosphereFromEntriesAsWritten (shown by Formulas.ZeroOatReadAsFifteen) | Formulas.AtmosphereFromEntries |
